/**
 The fork-join protocol of the host expert executor as a transition system.

 One step is one atomic operation, one row of a task body or one slot of the `xsum_act` fill.
 Atomics are sequentially consistent. A schedule is any sequence of actions of the device thread
 and of the workers; an action that is not enabled changes nothing, so quantifying over schedules
 quantifies over every interleaving.
 */
module HostProtocol {
  import opened Sums
  import opened Tasks

  /** What `submit` and the workers read off the model. `cap` is `n_expert_used`. */
  datatype Geometry = Geometry(threads: nat, cap: nat, nEmbd: nat, nFf: nat)
  {
    predicate Valid() { threads > 0 }
  }

  /**
   One block's work. `rowA(e, r)` is the value `swiglu_rows` computes for row r of routed expert e;
   `rowB(e, r, act, xsum)` is the value `matvec_rows` computes for row r of its down projection.
   */
  datatype Job = Job(
    nExperts: nat,
    rowA: (nat, nat) -> real,
    rowB: (nat, nat, seq<real>, seq<real>) -> real,
    weights: seq<real>)

  /** Where a worker stands in `worker` and `run_job`. */
  datatype Pc =
    | Waiting
    | Enter
    | ClaimA
    | RunA(task: nat, row: nat)
    | CountA(task: nat)
    | FillXsum(slot: nat)
    | OpenGate
    | Barrier
    | ClaimB
    | RunB(task: nat, row: nat)
    | CountB(task: nat)
    | Acking

  datatype Worker = Worker(seen: nat, pc: Pc)

  /** Where the device thread stands in `submit` and `sync`. */
  datatype Main =
    | Idle
    | Storing(k: nat)
    | Scanning(epoch: nat, nExperts: nat, next: nat)

  /** `log` and `returned` record, for the statements only, what was submitted and what `sync` wrote. */
  datatype State = State(
    epoch: nat,
    acks: seq<nat>,
    cursorA: nat,
    cursorB: nat,
    doneA: nat,
    doneB: nat,
    gateB: bool,
    job: Job,
    act: seq<real>,
    out: seq<real>,
    xsum: seq<real>,
    weights: seq<real>,
    workers: seq<Worker>,
    main: Main,
    log: seq<Job>,
    returned: seq<seq<real>>)

  datatype Action =
    | Submit(job: Job)
    | Refuse(job: Job)
    | Device
    | Run(w: nat)

  // ---- the job's two phases ---------------------------------------------------------------

  function PhaseA(g: Geometry, j: Job): (p: Phase)
    ensures p.Valid()
  {
    PhaseFor(j.nExperts, g.nFf, Max(g.threads * 2, 1))
  }

  function PhaseB(g: Geometry, j: Job): (p: Phase)
    ensures p.Valid()
  {
    PhaseFor(j.nExperts, g.nEmbd, Max(g.threads * 2, 1))
  }

  function PerXsum(g: Geometry): nat { CeilDiv(g.nFf, 32) }

  function Slots(g: Geometry, j: Job): nat { j.nExperts * PerXsum(g) }

  // ---- what one expert computes on its own --------------------------------------------------

  ghost function ActOf(g: Geometry, j: Job, e: nat): (a: seq<real>)
    ensures |a| == g.nFf
  {
    seq(g.nFf, r requires 0 <= r < g.nFf => j.rowA(e, r))
  }

  ghost function OutRow(g: Geometry, j: Job, e: nat, r: nat): real {
    j.rowB(e, r, ActOf(g, j, e), GroupSums(ActOf(g, j, e)))
  }

  /** Entry d of the router-order weighted sum of the first n experts. */
  ghost function WeightedSum(g: Geometry, j: Job, d: nat, n: nat): real
    requires n <= |j.weights|
  {
    if n == 0 then 0.0 else WeightedSum(g, j, d, n - 1) + j.weights[n - 1] * OutRow(g, j, n - 1, d)
  }

  /** What `sync` owes the caller for job j. */
  ghost function Expected(g: Geometry, j: Job): seq<real>
    requires |j.weights| == j.nExperts
  {
    seq(g.nEmbd, d requires 0 <= d < g.nEmbd => WeightedSum(g, j, d, j.nExperts))
  }

  // ---- steps -----------------------------------------------------------------------------

  function Store(buf: seq<real>, i: nat, v: real): (r: seq<real>)
    ensures |r| == |buf|
  {
    if i < |buf| then buf[i := v] else buf
  }

  function Slice(buf: seq<real>, off: nat, len: nat): seq<real> {
    if off + len <= |buf| then buf[off..off + len] else []
  }

  ghost function GroupSumAt(x: seq<real>, c: nat): real {
    if 32 * c <= |x| then GroupSum(x, c) else 0.0
  }

  /** Worker w took a step: what only the device thread or the other workers own is untouched. */
  ghost predicate WorkerFrame(s: State, s': State, w: nat) {
    && |s'.workers| == |s.workers| && |s'.acks| == |s.acks|
    && s'.epoch == s.epoch && s'.main == s.main && s'.log == s.log && s'.job == s.job
    && (forall v :: 0 <= v < |s.workers| && v != w ==> s'.workers[v] == s.workers[v])
  }

  function Goto(s: State, w: nat, pc: Pc): (s': State)
    requires w < |s.workers|
    ensures WorkerFrame(s, s', w)
  {
    s.(workers := s.workers[w := s.workers[w].(pc := pc)])
  }

  ghost function Init(g: Geometry, j0: Job): State {
    State(0, seq(g.threads, _ => 0), 0, 0, 0, 0, false, j0,
          seq(g.cap * g.nFf, _ => 0.0), seq(g.cap * g.nEmbd, _ => 0.0), seq(g.cap * PerXsum(g), _ => 0.0),
          [], seq(g.threads, _ => Worker(0, Waiting)), Idle, [], [])
  }

  /** One row of a phase-A task, or the end of it. */
  function RowStepA(g: Geometry, s: State, w: nat, i: nat, r: nat): (s': State)
    requires w < |s.workers|
    ensures WorkerFrame(s, s', w) && s'.acks == s.acks && s'.workers[w].seen == s.workers[w].seen
  {
    var a := PhaseA(g, s.job);
    if i < a.Total() && r < a.Hi(i) then
      var e := a.Expert(i);
      Goto(s.(act := Store(s.act, Flat(g.nFf, e, r), s.job.rowA(e, r))), w, RunA(i, r + 1))
    else
      Goto(s, w, CountA(i))
  }

  /** One slot of `xsum_act`, or the end of the fill. */
  ghost function FillStep(g: Geometry, s: State, w: nat, k: nat): (s': State)
    requires w < |s.workers|
    ensures WorkerFrame(s, s', w) && s'.acks == s.acks && s'.workers[w].seen == s.workers[w].seen
  {
    if k < Slots(g, s.job) && PerXsum(g) > 0 then
      var e, c := k / PerXsum(g), k % PerXsum(g);
      Goto(s.(xsum := Store(s.xsum, k, GroupSumAt(Slice(s.act, e * g.nFf, g.nFf), c))), w, FillXsum(k + 1))
    else
      Goto(s, w, OpenGate)
  }

  /** One row of a phase-B task, or the end of it. */
  function RowStepB(g: Geometry, s: State, w: nat, i: nat, r: nat): (s': State)
    requires w < |s.workers|
    ensures WorkerFrame(s, s', w) && s'.acks == s.acks && s'.workers[w].seen == s.workers[w].seen
  {
    var b := PhaseB(g, s.job);
    if i < b.Total() && r < b.Hi(i) then
      var e := b.Expert(i);
      var act, xsum := Slice(s.act, e * g.nFf, g.nFf), Slice(s.xsum, e * PerXsum(g), PerXsum(g));
      Goto(s.(out := Store(s.out, Flat(g.nEmbd, e, r), s.job.rowB(e, r, act, xsum))), w, RunB(i, r + 1))
    else
      Goto(s, w, CountB(i))
  }

  function ClaimStepA(g: Geometry, s: State, w: nat): (s': State)
    requires w < |s.workers|
    ensures WorkerFrame(s, s', w) && s'.acks == s.acks && s'.workers[w].seen == s.workers[w].seen
  {
    var a, i := PhaseA(g, s.job), s.cursorA;
    Goto(s.(cursorA := i + 1), w, if i >= a.Total() then Barrier else RunA(i, a.Lo(i)))
  }

  function ClaimStepB(g: Geometry, s: State, w: nat): (s': State)
    requires w < |s.workers|
    ensures WorkerFrame(s, s', w) && s'.acks == s.acks && s'.workers[w].seen == s.workers[w].seen
  {
    var b, i := PhaseB(g, s.job), s.cursorB;
    Goto(s.(cursorB := i + 1), w, if i >= b.Total() then Acking else RunB(i, b.Lo(i)))
  }

  ghost function WorkerStep(g: Geometry, s: State, w: nat): (s': State)
    requires w < |s.workers| && |s.acks| == |s.workers|
    ensures WorkerFrame(s, s', w)
    ensures forall v :: 0 <= v < |s.acks| && v != w ==> s'.acks[v] == s.acks[v]
  {
    match s.workers[w].pc
    case Waiting =>
      if s.epoch != s.workers[w].seen then s.(workers := s.workers[w := Worker(s.epoch, Enter)]) else s
    case Enter => Goto(s, w, if s.job.nExperts == 0 then Acking else ClaimA)
    case ClaimA => ClaimStepA(g, s, w)
    case RunA(i, r) => RowStepA(g, s, w, i, r)
    case CountA(_) =>
      var last := s.doneA + 1 == PhaseA(g, s.job).Total();
      Goto(s.(doneA := s.doneA + 1), w, if last then FillXsum(0) else ClaimA)
    case FillXsum(k) => FillStep(g, s, w, k)
    case OpenGate => Goto(s.(gateB := true), w, ClaimA)
    case Barrier => if s.gateB then Goto(s, w, ClaimB) else s
    case ClaimB => ClaimStepB(g, s, w)
    case RunB(i, r) => RowStepB(g, s, w, i, r)
    case CountB(_) => Goto(s.(doneB := s.doneB + 1), w, ClaimB)
    case Acking => Goto(s.(acks := s.acks[w := s.workers[w].seen]), w, Waiting)
  }

  /** One entry of the combine loop of `sync`. */
  function CombineAt(g: Geometry, out: seq<real>, weights: seq<real>, d: nat, n: nat): real
    requires n <= |weights|
  {
    if n == 0 then 0.0
    else
      var i := Flat(g.nEmbd, n - 1, d);
      CombineAt(g, out, weights, d, n - 1) + weights[n - 1] * (if i < |out| then out[i] else 0.0)
  }

  function Combine(g: Geometry, out: seq<real>, weights: seq<real>, n: nat): seq<real> {
    seq(g.nEmbd, d requires 0 <= d < g.nEmbd => CombineAt(g, out, weights, d, Min(n, |weights|)))
  }

  /** A step of the device thread inside `submit` (after the job is written) or inside `sync`. */
  function DeviceStep(g: Geometry, s: State): (s': State)
    ensures s'.acks == s.acks && s'.workers == s.workers
  {
    match s.main
    case Idle => s
    case Storing(0) => s.(cursorA := 0, main := Storing(1))
    case Storing(1) => s.(cursorB := 0, main := Storing(2))
    case Storing(2) => s.(doneA := 0, main := Storing(3))
    case Storing(3) => s.(doneB := 0, main := Storing(4))
    case Storing(4) => s.(gateB := false, main := Storing(5))
    case Storing(_) =>
      s.(epoch := s.epoch + 1, log := s.log + [s.job], main := Scanning(s.epoch + 1, s.job.nExperts, 0))
    case Scanning(t, n, k) =>
      if k < |s.acks| then
        s.(main := Scanning(t, n, if s.acks[k] < t then 0 else k + 1))
      else
        s.(returned := s.returned + [Combine(g, s.out, s.weights, n)], main := Idle)
  }

  predicate Acceptable(g: Geometry, j: Job) {
    j.nExperts <= g.cap && |j.weights| == j.nExperts
  }

  /**
   A submit that is refused after its checks began leaves the job cell half written and returns;
   `Refuse` lets it leave anything there.
   */
  ghost function Apply(g: Geometry, s: State, a: Action): (s': State)
    requires |s.acks| == |s.workers|
    ensures |s'.acks| == |s'.workers| == |s.workers|
  {
    match a
    case Submit(j) =>
      if s.main == Idle && Acceptable(g, j) then s.(job := j, weights := j.weights, main := Storing(0)) else s
    case Refuse(j) =>
      if s.main == Idle then s.(job := j) else s
    case Device => DeviceStep(g, s)
    case Run(w) => if w < |s.workers| then WorkerStep(g, s, w) else s
  }

  /** The state a schedule reaches. */
  ghost function Reach(g: Geometry, j0: Job, schedule: seq<Action>): (s: State)
    ensures |s.acks| == |s.workers| == g.threads
  {
    if schedule == [] then Init(g, j0)
    else Apply(g, Reach(g, j0, schedule[..|schedule| - 1]), schedule[|schedule| - 1])
  }

  // ---- claiming tasks off a cursor -----------------------------------------------------------

  /** The task a worker has claimed and not yet counted. */
  datatype Held = Free | Holds(task: nat)

  function Flag(h: Held): nat { if h.Holds? then 1 else 0 }

  function Count(held: seq<Held>): nat {
    if held == [] then 0 else Count(held[..|held| - 1]) + Flag(held[|held| - 1])
  }

  lemma {:induction false} CountUpdate(held: seq<Held>, w: nat, h: Held)
    requires w < |held|
    ensures Count(held[w := h]) + Flag(held[w]) == Count(held) + Flag(h)
  {
    var n := |held| - 1;
    if w < n {
      CountUpdate(held[..n], w, h);
      assert held[w := h][..n] == held[..n][w := h];
    } else {
      assert held[w := h][..n] == held[..n];
    }
  }

  lemma {:induction false} CountZero(held: seq<Held>)
    ensures Count(held) == 0 <==> forall w :: 0 <= w < |held| ==> held[w].Free?
  {
    if held != [] {
      var n := |held| - 1;
      CountZero(held[..n]);
      assert forall w :: 0 <= w < n ==> held[..n][w] == held[w];
    }
  }

  /**
   A cursor hands out each task below `total` once; a claimed task is completed or held by exactly
   one worker; and `done` counts the completed ones.
   */
  ghost predicate Claims(held: seq<Held>, cursor: nat, done: nat, total: nat, completed: nat -> bool) {
    var n := Min(cursor, total);
    && done + Count(held) == n
    && (forall w :: 0 <= w < |held| && held[w].Holds? ==> held[w].task < n)
    && (forall v, w :: 0 <= v < w < |held| && held[v].Holds? ==> held[v] != held[w])
    && (forall i: nat :: i < n ==> completed(i) || Holds(i) in held)
  }

  lemma ClaimTaken(held: seq<Held>, w: nat, cursor: nat, done: nat, total: nat, completed: nat -> bool)
    requires Claims(held, cursor, done, total, completed)
    requires w < |held| && held[w].Free? && cursor < total
    ensures Claims(held[w := Holds(cursor)], cursor + 1, done, total, completed)
  {
    var held' := held[w := Holds(cursor)];
    CountUpdate(held, w, Holds(cursor));
    assert held'[w] == Holds(cursor);
    forall i: nat | i < cursor && Holds(i) in held ensures Holds(i) in held' {
      var v :| 0 <= v < |held| && held[v] == Holds(i);
      assert held'[v] == Holds(i);
    }
  }

  lemma ClaimCounted(held: seq<Held>, w: nat, cursor: nat, done: nat, total: nat, completed: nat -> bool)
    requires Claims(held, cursor, done, total, completed)
    requires w < |held| && held[w].Holds? && completed(held[w].task)
    ensures Claims(held[w := Free], cursor, done + 1, total, completed)
  {
    var held' := held[w := Free];
    CountUpdate(held, w, Free);
    forall i: nat | Holds(i) in held && i != held[w].task ensures Holds(i) in held' {
      var v :| 0 <= v < |held| && held[v] == Holds(i);
      assert held'[v] == Holds(i);
    }
  }

  /** While somebody holds a task, the phase is not counted complete. */
  lemma HolderKeepsPhaseOpen(held: seq<Held>, w: nat, cursor: nat, done: nat, total: nat, completed: nat -> bool)
    requires Claims(held, cursor, done, total, completed)
    requires w < |held| && held[w].Holds?
    ensures done < total
  {
    CountZero(held);
  }

  /** Once every task is counted, nobody holds one and all are completed. */
  lemma AllCounted(held: seq<Held>, cursor: nat, done: nat, total: nat, completed: nat -> bool)
    requires Claims(held, cursor, done, total, completed)
    requires done == total
    ensures cursor >= total
    ensures forall w :: 0 <= w < |held| ==> held[w].Free?
    ensures forall i: nat :: i < total ==> completed(i)
  {
    CountZero(held);
  }

  /** With the cursor past the end and nothing held, every task has been counted. */
  lemma NothingHeld(held: seq<Held>, cursor: nat, done: nat, total: nat, completed: nat -> bool)
    requires Claims(held, cursor, done, total, completed)
    requires cursor >= total && forall w :: 0 <= w < |held| ==> held[w].Free?
    ensures done == total
  {
    CountZero(held);
  }

  // ---- the invariant ------------------------------------------------------------------------

  function HeldA(pc: Pc): Held {
    match pc
    case RunA(i, _) => Holds(i)
    case CountA(i) => Holds(i)
    case _ => Free
  }

  function HeldB(pc: Pc): Held {
    match pc
    case RunB(i, _) => Holds(i)
    case CountB(i) => Holds(i)
    case _ => Free
  }

  function HeldsA(ws: seq<Worker>): (h: seq<Held>)
    ensures |h| == |ws| && forall w :: 0 <= w < |ws| ==> h[w] == HeldA(ws[w].pc)
  {
    seq(|ws|, w requires 0 <= w < |ws| => HeldA(ws[w].pc))
  }

  function HeldsB(ws: seq<Worker>): (h: seq<Held>)
    ensures |h| == |ws| && forall w :: 0 <= w < |ws| ==> h[w] == HeldB(ws[w].pc)
  {
    seq(|ws|, w requires 0 <= w < |ws| => HeldB(ws[w].pc))
  }

  predicate Filling(pc: Pc) { pc.FillXsum? || pc.OpenGate? }

  /** The row of `act` is what the job's gate and up projections say. */
  ghost predicate RowA(g: Geometry, s: State, e: nat, r: nat) {
    Flat(g.nFf, e, r) < |s.act| && s.act[Flat(g.nFf, e, r)] == s.job.rowA(e, r)
  }

  ghost predicate RowB(g: Geometry, s: State, e: nat, r: nat) {
    Flat(g.nEmbd, e, r) < |s.out| && s.out[Flat(g.nEmbd, e, r)] == OutRow(g, s.job, e, r)
  }

  ghost function SlotValue(g: Geometry, j: Job, k: nat): real {
    if PerXsum(g) > 0 then GroupSumAt(ActOf(g, j, k / PerXsum(g)), k % PerXsum(g)) else 0.0
  }

  ghost predicate Slot(g: Geometry, s: State, k: nat) {
    k < |s.xsum| && s.xsum[k] == SlotValue(g, s.job, k)
  }

  ghost predicate RowsA(g: Geometry, s: State, i: nat, hi: nat)
    requires i < PhaseA(g, s.job).Total()
  {
    forall r: nat :: PhaseA(g, s.job).Lo(i) <= r < hi ==> RowA(g, s, PhaseA(g, s.job).Expert(i), r)
  }

  ghost predicate RowsB(g: Geometry, s: State, i: nat, hi: nat)
    requires i < PhaseB(g, s.job).Total()
  {
    forall r: nat :: PhaseB(g, s.job).Lo(i) <= r < hi ==> RowB(g, s, PhaseB(g, s.job).Expert(i), r)
  }

  ghost predicate TaskDoneA(g: Geometry, s: State, i: nat) {
    var a := PhaseA(g, s.job);
    i < a.Total() && RowsA(g, s, i, a.Hi(i))
  }

  ghost predicate TaskDoneB(g: Geometry, s: State, i: nat) {
    var b := PhaseB(g, s.job);
    i < b.Total() && RowsB(g, s, i, b.Hi(i))
  }

  ghost predicate AllA(g: Geometry, s: State) {
    forall e: nat, r: nat :: e < s.job.nExperts && r < g.nFf ==> RowA(g, s, e, r)
  }

  ghost predicate AllSlots(g: Geometry, s: State) {
    forall k: nat :: k < Slots(g, s.job) ==> Slot(g, s, k)
  }

  ghost predicate AllB(g: Geometry, s: State) {
    forall e: nat, r: nat :: e < s.job.nExperts && r < g.nEmbd ==> RowB(g, s, e, r)
  }

  ghost predicate Shape(g: Geometry, s: State) {
    && g.Valid()
    && |s.workers| == |s.acks| == g.threads
    && |s.act| == g.cap * g.nFf
    && |s.out| == g.cap * g.nEmbd
    && |s.xsum| == g.cap * PerXsum(g)
    && s.epoch == |s.log|
    && (forall i :: 0 <= i < |s.log| ==> Acceptable(g, s.log[i]))
    && |s.returned| == (if s.main.Scanning? then |s.log| - 1 else |s.log|)
    && (forall i :: 0 <= i < |s.returned| ==> s.returned[i] == Expected(g, s.log[i]))
  }

  /** No worker is inside a job: all of them acknowledged the current epoch. */
  ghost predicate Quiet(s: State) {
    && |s.acks| == |s.workers|
    && (forall w :: 0 <= w < |s.workers| ==> s.workers[w] == Worker(s.epoch, Waiting))
    && (forall w :: 0 <= w < |s.acks| ==> s.acks[w] == s.epoch)
  }

  ghost predicate Stored(g: Geometry, s: State, k: nat) {
    && k <= 5
    && Acceptable(g, s.job) && s.weights == s.job.weights
    && (k > 0 ==> s.cursorA == 0)
    && (k > 1 ==> s.cursorB == 0)
    && (k > 2 ==> s.doneA == 0)
    && (k > 3 ==> s.doneB == 0)
    && (k > 4 ==> !s.gateB)
  }

  ghost predicate Finished(g: Geometry, s: State) {
    s.job.nExperts > 0 ==>
      s.gateB && s.cursorA >= PhaseA(g, s.job).Total() && s.cursorB >= PhaseB(g, s.job).Total()
  }

  /** What a worker's program counter says about the shared state. */
  ghost predicate PcInv(g: Geometry, s: State, pc: Pc) {
    var a, b := PhaseA(g, s.job), PhaseB(g, s.job);
    && (!pc.Waiting? && !pc.Enter? && !pc.Acking? ==> s.job.nExperts > 0)
    && match pc
       case Waiting => Finished(g, s)
       case Enter => true
       case ClaimA => true
       case RunA(i, r) => i < s.cursorA && i < a.Total() && a.Lo(i) <= r <= a.Hi(i) && RowsA(g, s, i, r)
       case CountA(i) => i < s.cursorA && TaskDoneA(g, s, i)
       case FillXsum(k) =>
         && s.doneA == a.Total() > 0 && !s.gateB && k <= Slots(g, s.job)
         && (forall k': nat :: k' < k ==> Slot(g, s, k'))
       case OpenGate => s.doneA == a.Total() > 0 && !s.gateB && AllSlots(g, s)
       case Barrier => s.cursorA >= a.Total()
       case ClaimB => s.gateB && s.cursorA >= a.Total()
       case RunB(i, r) =>
         && s.gateB && s.cursorA >= a.Total()
         && i < s.cursorB && i < b.Total() && b.Lo(i) <= r <= b.Hi(i) && RowsB(g, s, i, r)
       case CountB(i) => s.gateB && s.cursorA >= a.Total() && i < s.cursorB && TaskDoneB(g, s, i)
       case Acking => Finished(g, s)
  }

  /** A worker either has not yet woken for this epoch, or is inside its job, or acknowledged it. */
  ghost predicate WorkerInv(g: Geometry, s: State, w: nat)
    requires w < |s.workers| && |s.acks| == |s.workers|
  {
    var me := s.workers[w];
    if me.seen == s.epoch then
      && s.acks[w] == (if me.pc.Waiting? then s.epoch else s.epoch - 1)
      && PcInv(g, s, me.pc)
    else
      s.epoch > 0 && me == Worker(s.epoch - 1, Waiting) && s.acks[w] == s.epoch - 1
  }

  ghost predicate ClaimsA(g: Geometry, s: State) {
    Claims(HeldsA(s.workers), s.cursorA, s.doneA, PhaseA(g, s.job).Total(), (i: nat) => TaskDoneA(g, s, i))
  }

  ghost predicate ClaimsB(g: Geometry, s: State) {
    Claims(HeldsB(s.workers), s.cursorB, s.doneB, PhaseB(g, s.job).Total(), (i: nat) => TaskDoneB(g, s, i))
  }

  ghost predicate GateInv(g: Geometry, s: State) {
    var a := PhaseA(g, s.job);
    && (s.gateB ==> s.doneA == a.Total() > 0 && AllSlots(g, s))
    && (!s.gateB ==> s.cursorB == 0 && s.doneB == 0)
    && (s.doneA == a.Total() > 0 && !s.gateB ==> exists w :: 0 <= w < |s.workers| && Filling(s.workers[w].pc))
    && (forall v, w :: 0 <= v < w < |s.workers| && Filling(s.workers[v].pc) ==> !Filling(s.workers[w].pc))
  }

  ghost predicate Ticket(g: Geometry, s: State) {
    && s.main.Scanning?
    && s.log != [] && s.job == s.log[|s.log| - 1] && s.weights == s.job.weights
    && s.main.epoch == s.epoch && s.main.nExperts == s.job.nExperts
    && s.main.next <= |s.acks|
    && (forall w :: 0 <= w < s.main.next ==> s.acks[w] == s.epoch)
  }

  ghost predicate InFlight(g: Geometry, s: State)
    requires |s.acks| == |s.workers|
  {
    && Ticket(g, s)
    && (forall w :: 0 <= w < |s.workers| ==> WorkerInv(g, s, w))
    && ClaimsA(g, s)
    && GateInv(g, s)
    && ClaimsB(g, s)
  }

  ghost predicate Inv(g: Geometry, s: State) {
    && Shape(g, s)
    && match s.main
       case Idle => Quiet(s)
       case Storing(k) => Quiet(s) && Stored(g, s, k)
       case Scanning(_, _, _) => InFlight(g, s)
  }
}
