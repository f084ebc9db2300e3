/** Every step of the host executor keeps the protocol's invariant. */
module HostSafety {
  import opened Sums
  import opened Tasks
  import opened HostProtocol

  /** Nothing a worker relies on is lost between s and s'. */
  ghost predicate Grows(g: Geometry, s: State, s': State) {
    && s'.job == s.job && s'.epoch == s.epoch
    && s.cursorA <= s'.cursorA && s.cursorB <= s'.cursorB
    && (s.gateB ==> s'.gateB)
    && (forall e: nat, r: nat :: r < g.nFf && RowA(g, s, e, r) ==> RowA(g, s', e, r))
    && (forall e: nat, r: nat :: r < g.nEmbd && RowB(g, s, e, r) ==> RowB(g, s', e, r))
    && (forall k: nat :: Slot(g, s, k) ==> Slot(g, s', k))
  }

  lemma TaskDoneGrows(g: Geometry, s: State, s': State)
    requires Grows(g, s, s')
    ensures forall i: nat :: TaskDoneA(g, s, i) ==> TaskDoneA(g, s', i)
    ensures forall i: nat :: TaskDoneB(g, s, i) ==> TaskDoneB(g, s', i)
  {
  }

  lemma PcGrows(g: Geometry, s: State, s': State, pc: Pc)
    requires Grows(g, s, s') && PcInv(g, s, pc)
    requires Filling(pc) ==> s'.doneA == s.doneA && s'.gateB == s.gateB
    ensures PcInv(g, s', pc)
  {
    TaskDoneGrows(g, s, s');
  }

  /** Worker w moves to `pc`; every other worker keeps its place. */
  ghost predicate Moves(s: State, s': State, w: nat, pc: Pc) {
    && w < |s.workers| && |s.acks| == |s.workers|
    && s'.workers == s.workers[w := s.workers[w].(pc := pc)]
    && s'.main == s.main && s'.log == s.log && s'.weights == s.weights && s'.returned == s.returned
    && |s'.act| == |s.act| && |s'.out| == |s.out| && |s'.xsum| == |s.xsum|
  }

  lemma HeldsMoved(s: State, s': State, w: nat, pc: Pc)
    requires Moves(s, s', w, pc)
    ensures HeldsA(s'.workers) == HeldsA(s.workers)[w := HeldA(pc)]
    ensures HeldsB(s'.workers) == HeldsB(s.workers)[w := HeldB(pc)]
  {
  }

  /** The step of a worker inside its job, given that the shared state only grows. */
  lemma WorkerMoves(g: Geometry, s: State, s': State, w: nat, pc: Pc)
    requires Inv(g, s) && InFlight(g, s)
    requires Moves(s, s', w, pc) && s'.acks == s.acks && !pc.Waiting?
    requires s.workers[w].seen == s.epoch && !s.workers[w].pc.Waiting?
    requires Grows(g, s, s') && PcInv(g, s', pc)
    requires s'.doneA == s.doneA || s.doneA < PhaseA(g, s.job).Total()
    requires s'.gateB == s.gateB || Filling(s.workers[w].pc)
    requires ClaimsA(g, s') && GateInv(g, s') && ClaimsB(g, s')
    ensures Inv(g, s')
  {
    hide Claims, ClaimsA, ClaimsB, Finished, TaskDoneA, PhaseA;
    forall v | 0 <= v < |s'.workers| && v != w ensures WorkerInv(g, s', v) {
      assert WorkerInv(g, s, v);
      var me := s.workers[v];
      if me.seen == s.epoch {
        if v < w {
          assert Filling(me.pc) ==> !Filling(s.workers[w].pc);
        } else {
          assert Filling(s.workers[w].pc) ==> !Filling(me.pc);
        }
        PcGrows(g, s, s', me.pc);
      }
    }
    assert WorkerInv(g, s, w);
    assert WorkerInv(g, s', w);
  }

  /** Claims whose held tasks, cursor and count are untouched survive growth. */
  lemma ClaimsKept(held: seq<Held>, cursor: nat, done: nat, total: nat, c: nat -> bool, c': nat -> bool)
    requires Claims(held, cursor, done, total, c)
    requires forall i: nat :: c(i) ==> c'(i)
    ensures Claims(held, cursor, done, total, c')
  {
  }

  lemma KeepClaims(g: Geometry, s: State, s': State, w: nat, pc: Pc)
    requires InvOf(g, s) && Moves(s, s', w, pc) && Grows(g, s, s')
    ensures HeldA(pc) == HeldA(s.workers[w].pc) && s'.cursorA == s.cursorA && s'.doneA == s.doneA ==> ClaimsA(g, s')
    ensures HeldB(pc) == HeldB(s.workers[w].pc) && s'.cursorB == s.cursorB && s'.doneB == s.doneB ==> ClaimsB(g, s')
  {
    HeldsMoved(s, s', w, pc);
    TaskDoneGrows(g, s, s');
    if HeldA(pc) == HeldA(s.workers[w].pc) && s'.cursorA == s.cursorA && s'.doneA == s.doneA {
      assert HeldsA(s'.workers) == HeldsA(s.workers);
      ClaimsKept(HeldsA(s.workers), s.cursorA, s.doneA, PhaseA(g, s.job).Total(),
                 (i: nat) => TaskDoneA(g, s, i), (i: nat) => TaskDoneA(g, s', i));
    }
    if HeldB(pc) == HeldB(s.workers[w].pc) && s'.cursorB == s.cursorB && s'.doneB == s.doneB {
      assert HeldsB(s'.workers) == HeldsB(s.workers);
      ClaimsKept(HeldsB(s.workers), s.cursorB, s.doneB, PhaseB(g, s.job).Total(),
                 (i: nat) => TaskDoneB(g, s, i), (i: nat) => TaskDoneB(g, s', i));
    }
  }

  ghost predicate InvOf(g: Geometry, s: State) {
    Inv(g, s) && s.main.Scanning?
  }

  /** The gate's part, when done_a and gate_b stand still and nobody starts or stops filling. */
  lemma GateKept(g: Geometry, s: State, s': State, w: nat, pc: Pc)
    requires InvOf(g, s) && Moves(s, s', w, pc) && Grows(g, s, s')
    requires s'.doneA == s.doneA && s'.gateB == s.gateB
    requires Filling(pc) == Filling(s.workers[w].pc)
    requires !s'.gateB ==> s'.cursorB == 0 && s'.doneB == 0
    ensures GateInv(g, s')
  {
    if s.doneA == PhaseA(g, s.job).Total() > 0 && !s.gateB {
      var v :| 0 <= v < |s.workers| && Filling(s.workers[v].pc);
      assert Filling(s'.workers[v].pc);
    }
  }

  /** A worker inside the current job, at program counter `pc`. */
  ghost predicate At(g: Geometry, s: State, w: nat, pc: Pc) {
    InvOf(g, s) && w < |s.workers| && s.workers[w] == Worker(s.epoch, pc) && WorkerInv(g, s, w)
  }

  // ---- one lemma per kind of step ------------------------------------------------------------

  /** The phases and the gate do not care what workers have seen or acknowledged. */
  lemma PhasesKept(g: Geometry, s: State, s': State)
    requires ClaimsA(g, s) && ClaimsB(g, s) && GateInv(g, s)
    requires s' == s.(main := s'.main, acks := s'.acks, workers := s'.workers) && |s'.workers| == |s.workers|
    requires forall v :: 0 <= v < |s.workers| ==>
      var pc, pc' := s.workers[v].pc, s'.workers[v].pc;
      HeldA(pc') == HeldA(pc) && HeldB(pc') == HeldB(pc) && Filling(pc') == Filling(pc)
    ensures ClaimsA(g, s') && ClaimsB(g, s') && GateInv(g, s')
  {
    assert HeldsA(s'.workers) == HeldsA(s.workers);
    assert HeldsB(s'.workers) == HeldsB(s.workers);
    TaskDoneGrows(g, s, s');
    ClaimsKept(HeldsA(s.workers), s.cursorA, s.doneA, PhaseA(g, s.job).Total(),
               (i: nat) => TaskDoneA(g, s, i), (i: nat) => TaskDoneA(g, s', i));
    ClaimsKept(HeldsB(s.workers), s.cursorB, s.doneB, PhaseB(g, s.job).Total(),
               (i: nat) => TaskDoneB(g, s, i), (i: nat) => TaskDoneB(g, s', i));
    if s.doneA == PhaseA(g, s.job).Total() > 0 && !s.gateB {
      var v :| 0 <= v < |s.workers| && Filling(s.workers[v].pc);
      assert Filling(s'.workers[v].pc);
    }
  }

  /** Workers that did not move keep their part of the invariant. */
  lemma OthersKept(g: Geometry, s: State, s': State, w: nat)
    requires |s.acks| == |s.workers| == |s'.workers| == |s'.acks|
    requires s' == s.(main := s'.main, acks := s'.acks, workers := s'.workers)
    requires forall v :: 0 <= v < |s.workers| && v != w ==>
      WorkerInv(g, s, v) && s'.workers[v] == s.workers[v] && s'.acks[v] == s.acks[v]
    ensures forall v :: 0 <= v < |s.workers| && v != w ==> WorkerInv(g, s', v)
  {
    forall v | 0 <= v < |s.workers| && v != w ensures WorkerInv(g, s', v) {
      if s.workers[v].seen == s.epoch {
        PcGrows(g, s, s', s.workers[v].pc);
      }
    }
  }

  lemma StepWakes(g: Geometry, s: State, w: nat)
    requires InvOf(g, s) && w < |s.workers| && s.workers[w].pc == Waiting && s.workers[w].seen != s.epoch
    ensures Inv(g, WorkerStep(g, s, w))
  {
    var s' := WorkerStep(g, s, w);
    assert WorkerInv(g, s, w);
    OthersKept(g, s, s', w);
    PhasesKept(g, s, s');
    assert WorkerInv(g, s', w);
    assert Ticket(g, s');
  }

  lemma StepAcks(g: Geometry, s: State, w: nat)
    requires At(g, s, w, Acking)
    ensures Inv(g, WorkerStep(g, s, w))
  {
    hide Claims, RowsA, Min;
    var s' := WorkerStep(g, s, w);
    OthersKept(g, s, s', w);
    PhasesKept(g, s, s');
    assert WorkerInv(g, s', w);
    assert Ticket(g, s');
  }

  lemma GateShut(g: Geometry, s: State)
    requires GateInv(g, s)
    ensures s.doneA < PhaseA(g, s.job).Total() ==> !s.gateB
    ensures !s.gateB ==> s.cursorB == 0 && s.doneB == 0
  {
  }

  lemma StepEnters(g: Geometry, s: State, w: nat)
    requires At(g, s, w, Enter)
    ensures Inv(g, WorkerStep(g, s, w))
  {
    hide Claims, ClaimsA, ClaimsB, GateInv;
    var s' := WorkerStep(g, s, w);
    var pc := s'.workers[w].pc;
    assert Moves(s, s', w, pc) && Grows(g, s, s') && PcInv(g, s', pc);
    GateShut(g, s);
    hide *;
    assert InvOf(g, s);
    KeepClaims(g, s, s', w, pc);
    GateKept(g, s, s', w, pc);
    WorkerMoves(g, s, s', w, pc);
  }

  lemma CursorPast(held: seq<Held>, cursor: nat, done: nat, total: nat, c: nat -> bool)
    requires Claims(held, cursor, done, total, c) && cursor >= total
    ensures Claims(held, cursor + 1, done, total, c)
  {
  }

  /** Taking the next index off the cursor, or learning that there is none left. */
  lemma CursorTakenA(g: Geometry, s: State, s': State, w: nat, pc: Pc)
    requires InvOf(g, s) && Moves(s, s', w, pc) && Grows(g, s, s') && HeldA(s.workers[w].pc).Free?
    requires s'.cursorA == s.cursorA + 1 && s'.doneA == s.doneA
    requires HeldA(pc) == if s.cursorA < PhaseA(g, s.job).Total() then Holds(s.cursorA) else Free
    ensures ClaimsA(g, s')
  {
    hide Claims, Shape, Ticket, GateInv, WorkerInv, TaskDoneA, PhaseA;
    var total := PhaseA(g, s.job).Total();
    var held, c := HeldsA(s.workers), (i: nat) => TaskDoneA(g, s, i);
    HeldsMoved(s, s', w, pc);
    assert Claims(held[w := HeldA(pc)], s'.cursorA, s.doneA, total, c) by {
      if s.cursorA < total {
        ClaimTaken(held, w, s.cursorA, s.doneA, total, c);
      } else {
        assert held[w := Free] == held;
        CursorPast(held, s.cursorA, s.doneA, total, c);
      }
    }
    TaskDoneGrows(g, s, s');
    ClaimsKept(HeldsA(s'.workers), s'.cursorA, s'.doneA, total, c, (i: nat) => TaskDoneA(g, s', i));
  }

  lemma StepClaimsA(g: Geometry, s: State, w: nat)
    requires At(g, s, w, ClaimA)
    ensures Inv(g, ClaimStepA(g, s, w))
  {
    hide Claims, ClaimsA, ClaimsB, GateInv;
    var s' := ClaimStepA(g, s, w);
    var pc := s'.workers[w].pc;
    assert Grows(g, s, s');
    if s.cursorA < PhaseA(g, s.job).Total() {
      TaskBounds(PhaseA(g, s.job), s.cursorA);
    }
    assert PcInv(g, s', pc);
    hide PcInv, Grows;
    KeepClaims(g, s, s', w, pc);
    ClaimKeepsGate(g, s, s', w, pc);
    CursorTakenA(g, s, s', w, pc);
    WorkerMoves(g, s, s', w, pc);
  }

  /** A claim neither counts nor opens nor fills. */
  lemma ClaimKeepsGate(g: Geometry, s: State, s': State, w: nat, pc: Pc)
    requires InvOf(g, s) && Moves(s, s', w, pc) && Grows(g, s, s')
    requires s'.doneA == s.doneA && s'.gateB == s.gateB && s'.doneB == s.doneB
    requires !Filling(pc) && !Filling(s.workers[w].pc) && (s.gateB || s'.cursorB == s.cursorB)
    ensures GateInv(g, s')
  {
    hide Claims, ClaimsA, ClaimsB, Shape, Ticket, WorkerInv, Grows;
    GateKept(g, s, s', w, pc);
  }

  /** Writing a row of `act` with its own value disturbs no row that is already right. */
  lemma StoreRowA(g: Geometry, s: State, s': State, e: nat, r: nat)
    requires Shape(g, s) && e < g.cap && r < g.nFf
    requires s'.act == Store(s.act, Flat(g.nFf, e, r), s.job.rowA(e, r))
    requires s' == s.(act := s'.act, workers := s'.workers)
    ensures Grows(g, s, s') && RowA(g, s', e, r)
  {
    hide Flat;
    FlatInside(g.cap, g.nFf, e, r);
    forall e': nat, r': nat | r' < g.nFf && RowA(g, s, e', r') ensures RowA(g, s', e', r') {
      FlatApart(g.nFf, e', r', e, r);
    }
  }

  lemma StoreRowB(g: Geometry, s: State, s': State, e: nat, r: nat)
    requires Shape(g, s) && e < g.cap && r < g.nEmbd
    requires s'.out == Store(s.out, Flat(g.nEmbd, e, r), OutRow(g, s.job, e, r))
    requires s' == s.(out := s'.out, workers := s'.workers)
    ensures Grows(g, s, s') && RowB(g, s', e, r)
  {
    hide Flat;
    FlatInside(g.cap, g.nEmbd, e, r);
    forall e': nat, r': nat | r' < g.nEmbd && RowB(g, s, e', r') ensures RowB(g, s', e', r') {
      FlatApart(g.nEmbd, e', r', e, r);
    }
  }

  lemma StepRowsA(g: Geometry, s: State, w: nat, i: nat, r: nat)
    requires At(g, s, w, RunA(i, r))
    ensures Inv(g, RowStepA(g, s, w, i, r))
  {
    hide Claims, GateInv, Quiet;
    var s' := RowStepA(g, s, w, i, r);
    var a := PhaseA(g, s.job);
    TaskBounds(a, i);
    if r < a.Hi(i) {
      StoreRowA(g, s, s', a.Expert(i), r);
      assert RowsA(g, s', i, r + 1);
      RowStepKeeps(g, s, s', w, RunA(i, r + 1));
    } else {
      RowStepKeeps(g, s, s', w, CountA(i));
    }
  }

  /** A step that only writes a buffer and moves within one task. */
  lemma RowStepKeeps(g: Geometry, s: State, s': State, w: nat, pc: Pc)
    requires w < |s.workers| && At(g, s, w, s.workers[w].pc)
    requires Moves(s, s', w, pc) && Grows(g, s, s') && PcInv(g, s', pc)
    requires !pc.Waiting? && !s.workers[w].pc.Waiting?
    requires s' == s.(act := s'.act, out := s'.out, xsum := s'.xsum, workers := s'.workers)
    requires HeldA(pc) == HeldA(s.workers[w].pc) && HeldB(pc) == HeldB(s.workers[w].pc)
    requires Filling(pc) == Filling(s.workers[w].pc)
    ensures Inv(g, s')
  {
    KeepClaims(g, s, s', w, pc);
    GateKept(g, s, s', w, pc);
    WorkerMoves(g, s, s', w, pc);
  }

  /** Counting the task in hand. */
  lemma TaskCountedA(g: Geometry, s: State, s': State, w: nat, pc: Pc, i: nat)
    requires InvOf(g, s) && Moves(s, s', w, pc) && Grows(g, s, s')
    requires HeldA(s.workers[w].pc) == Holds(i) && HeldA(pc).Free? && TaskDoneA(g, s, i)
    requires s'.cursorA == s.cursorA && s'.doneA == s.doneA + 1
    ensures s.doneA < PhaseA(g, s.job).Total() && ClaimsA(g, s')
  {
    hide Claims, Shape, Ticket, GateInv, WorkerInv, TaskDoneA, PhaseA;
    var total := PhaseA(g, s.job).Total();
    var held, c := HeldsA(s.workers), (t: nat) => TaskDoneA(g, s, t);
    HolderKeepsPhaseOpen(held, w, s.cursorA, s.doneA, total, c);
    ClaimCounted(held, w, s.cursorA, s.doneA, total, c);
    HeldsMoved(s, s', w, pc);
    TaskDoneGrows(g, s, s');
    ClaimsKept(HeldsA(s'.workers), s'.cursorA, s'.doneA, total, c, (t: nat) => TaskDoneA(g, s', t));
  }

  lemma StepCountsA(g: Geometry, s: State, w: nat, i: nat)
    requires At(g, s, w, CountA(i))
    ensures Inv(g, WorkerStep(g, s, w))
  {
    hide Claims, ClaimsA, ClaimsB, GateInv, TaskDoneA;
    var s' := WorkerStep(g, s, w);
    var pc := s'.workers[w].pc;
    assert Grows(g, s, s');
    TaskCountedA(g, s, s', w, pc, i);
    GateShut(g, s);
    assert PcInv(g, s', pc);
    hide PcInv, Grows, WorkerStep, PhaseA;
    KeepClaims(g, s, s', w, pc);
    GateCounted(g, s, s', w, pc);
    WorkerMoves(g, s, s', w, pc);
  }

  /** Counting a task leaves the gate shut, and makes this worker the filler if it was the last. */
  lemma GateCounted(g: Geometry, s: State, s': State, w: nat, pc: Pc)
    requires InvOf(g, s) && Moves(s, s', w, pc) && s.doneA < PhaseA(g, s.job).Total()
    requires s' == s.(doneA := s.doneA + 1, workers := s'.workers)
    requires Filling(pc) <==> s'.doneA == PhaseA(g, s.job).Total()
    ensures GateInv(g, s')
  {
    forall v | 0 <= v < |s.workers| ensures !Filling(s.workers[v].pc) {
      assert WorkerInv(g, s, v);
    }
    assert s'.workers[w].pc == pc;
  }

  lemma AllTasksA(g: Geometry, s: State)
    requires ClaimsA(g, s) && s.doneA == PhaseA(g, s.job).Total()
    ensures forall i: nat :: i < PhaseA(g, s.job).Total() ==> TaskDoneA(g, s, i)
  {
    var c := (i: nat) => TaskDoneA(g, s, i);
    AllCounted(HeldsA(s.workers), s.cursorA, s.doneA, PhaseA(g, s.job).Total(), c);
    assert forall i: nat :: c(i) == TaskDoneA(g, s, i);
  }

  lemma AllTasksB(g: Geometry, s: State)
    requires ClaimsB(g, s) && s.doneB == PhaseB(g, s.job).Total()
    ensures forall i: nat :: i < PhaseB(g, s.job).Total() ==> TaskDoneB(g, s, i)
  {
    var c := (i: nat) => TaskDoneB(g, s, i);
    AllCounted(HeldsB(s.workers), s.cursorB, s.doneB, PhaseB(g, s.job).Total(), c);
    assert forall i: nat :: c(i) == TaskDoneB(g, s, i);
  }

  /** When phase A is counted complete every row of `act` is final. */
  lemma PhaseAComplete(g: Geometry, s: State)
    requires ClaimsA(g, s) && s.doneA == PhaseA(g, s.job).Total()
    ensures AllA(g, s)
  {
    AllTasksA(g, s);
    forall e: nat, r: nat | e < s.job.nExperts && r < g.nFf ensures RowA(g, s, e, r) {
      TaskPartition(PhaseA(g, s.job), e, r);
      DoneCoversA(g, s, TaskOf(PhaseA(g, s.job), e, r), e, r);
    }
  }

  lemma PhaseBComplete(g: Geometry, s: State)
    requires ClaimsB(g, s) && s.doneB == PhaseB(g, s.job).Total()
    ensures AllB(g, s)
  {
    AllTasksB(g, s);
    forall e: nat, r: nat | e < s.job.nExperts && r < g.nEmbd ensures RowB(g, s, e, r) {
      TaskPartition(PhaseB(g, s.job), e, r);
      DoneCoversB(g, s, TaskOf(PhaseB(g, s.job), e, r), e, r);
    }
  }

  lemma DoneCoversA(g: Geometry, s: State, i: nat, e: nat, r: nat)
    requires TaskDoneA(g, s, i) && PhaseA(g, s.job).Covers(i, e, r)
    ensures RowA(g, s, e, r)
  {
  }

  lemma DoneCoversB(g: Geometry, s: State, i: nat, e: nat, r: nat)
    requires TaskDoneB(g, s, i) && PhaseB(g, s.job).Covers(i, e, r)
    ensures RowB(g, s, e, r)
  {
  }

  /** An expert's finished rows, read back as one slice. */
  lemma ActSlice(g: Geometry, s: State, e: nat)
    requires Shape(g, s) && AllA(g, s) && e < s.job.nExperts <= g.cap
    ensures Slice(s.act, e * g.nFf, g.nFf) == ActOf(g, s.job, e)
  {
    assert e * g.nFf + g.nFf <= |s.act| by {
      MulLe(g.nFf, e + 1, g.cap);
      assert (e + 1) * g.nFf == e * g.nFf + g.nFf;
    }
    forall r: nat | r < g.nFf ensures Slice(s.act, e * g.nFf, g.nFf)[r] == ActOf(g, s.job, e)[r] {
      assert RowA(g, s, e, r);
    }
  }

  lemma SlotBounds(g: Geometry, s: State, k: nat)
    requires Shape(g, s) && s.job.nExperts <= g.cap && k < Slots(g, s.job)
    ensures PerXsum(g) > 0 && k < |s.xsum| && k / PerXsum(g) < s.job.nExperts
  {
    var p := PerXsum(g);
    MulLe(s.job.nExperts, p, 0);
    MulLe(p, s.job.nExperts, g.cap);
    assert k == p * (k / p) + k % p;
    MulLe(p, s.job.nExperts, k / p);
  }

  /** Entry k of `xsum_act`, which is sum c of expert e, stored from the finished rows of that expert. */
  lemma StoreSlot(g: Geometry, s: State, s': State, k: nat, e: nat, c: nat)
    requires Shape(g, s) && AllA(g, s) && s.job.nExperts <= g.cap && k < Slots(g, s.job)
    requires PerXsum(g) > 0 && e == k / PerXsum(g) && c == k % PerXsum(g)
    requires s'.xsum == Store(s.xsum, k, GroupSumAt(Slice(s.act, e * g.nFf, g.nFf), c))
    requires s' == s.(xsum := s'.xsum, workers := s'.workers)
    ensures Grows(g, s, s') && Slot(g, s', k)
  {
    hide AllA, GroupSumAt, ActOf;
    SlotBounds(g, s, k);
    ActSlice(g, s, e);
  }

  /** What a filling step does to the buffers. */
  lemma FillWrites(g: Geometry, s: State, s': State, w: nat, k: nat)
    requires Shape(g, s) && AllA(g, s) && s.job.nExperts <= g.cap && w < |s.workers| && k < Slots(g, s.job)
    requires s' == FillStep(g, s, w, k)
    ensures s' == s.(xsum := s'.xsum, workers := s.workers[w := s.workers[w].(pc := FillXsum(k + 1))])
    ensures |s'.xsum| == |s.xsum| && Grows(g, s, s') && Slot(g, s', k)
  {
    hide AllA, GroupSumAt, Grows, Slots, Slot, Shape;
    SlotBounds(g, s, k);
    StoreSlot(g, s, s', k, k / PerXsum(g), k % PerXsum(g));
  }

  /** What a filling step does to the worker's own part of the invariant. */
  lemma FillAdvances(g: Geometry, s: State, s': State, w: nat, k: nat)
    requires At(g, s, w, FillXsum(k)) && k < Slots(g, s.job) && s' == FillStep(g, s, w, k)
    ensures Moves(s, s', w, FillXsum(k + 1)) && Grows(g, s, s') && PcInv(g, s', FillXsum(k + 1))
    ensures s' == s.(xsum := s'.xsum, workers := s'.workers)
  {
    hide Claims, ClaimsA, ClaimsB, GateInv, AllA, Grows, Slots, Slot, FillStep;
    ReadyToFill(g, s);
    FillWrites(g, s, s', w, k);
    SlotsGrow(g, s, s');
  }

  lemma SlotsGrow(g: Geometry, s: State, s': State)
    requires Grows(g, s, s')
    ensures forall k: nat :: Slot(g, s, k) ==> Slot(g, s', k)
  {
  }

  /** Whoever fills finds the rows of `act` final. */
  lemma ReadyToFill(g: Geometry, s: State)
    requires InvOf(g, s) && s.doneA == PhaseA(g, s.job).Total()
    ensures Shape(g, s) && AllA(g, s) && s.job.nExperts <= g.cap
  {
    hide Claims, GateInv;
    PhaseAComplete(g, s);
  }

  lemma StepFills(g: Geometry, s: State, w: nat, k: nat)
    requires At(g, s, w, FillXsum(k))
    ensures Inv(g, FillStep(g, s, w, k))
  {
    hide Inv, Grows, Claims, AllA, Slots, PerXsum;
    var s' := FillStep(g, s, w, k);
    if k < Slots(g, s.job) {
      FillAdvances(g, s, s', w, k);
      hide PcInv, FillStep;
      RowStepKeeps(g, s, s', w, FillXsum(k + 1));
    } else {
      FillEnds(g, s, s', w, k);
      hide PcInv, FillStep;
      RowStepKeeps(g, s, s', w, OpenGate);
    }
  }

  lemma FillEnds(g: Geometry, s: State, s': State, w: nat, k: nat)
    requires At(g, s, w, FillXsum(k)) && k >= Slots(g, s.job) && s' == FillStep(g, s, w, k)
    ensures Moves(s, s', w, OpenGate) && Grows(g, s, s') && PcInv(g, s', OpenGate) && s' == s.(workers := s'.workers)
  {
    hide Claims, ClaimsA, ClaimsB, GateInv;
  }

  lemma StepOpens(g: Geometry, s: State, w: nat)
    requires At(g, s, w, OpenGate)
    ensures Inv(g, WorkerStep(g, s, w))
  {
    var s' := WorkerStep(g, s, w);
    assert Grows(g, s, s');
    KeepClaims(g, s, s', w, ClaimA);
    assert AllSlots(g, s');
    assert GateInv(g, s');
    WorkerMoves(g, s, s', w, ClaimA);
  }

  lemma StepCrosses(g: Geometry, s: State, w: nat)
    requires At(g, s, w, Barrier) && s.gateB
    ensures Inv(g, WorkerStep(g, s, w))
  {
    var s' := WorkerStep(g, s, w);
    assert Grows(g, s, s');
    KeepClaims(g, s, s', w, ClaimB);
    GateKept(g, s, s', w, ClaimB);
    WorkerMoves(g, s, s', w, ClaimB);
  }

  /** Taking the next index off the cursor, or learning that there is none left. */
  lemma CursorTakenB(g: Geometry, s: State, s': State, w: nat, pc: Pc)
    requires InvOf(g, s) && Moves(s, s', w, pc) && Grows(g, s, s') && HeldB(s.workers[w].pc).Free?
    requires s'.cursorB == s.cursorB + 1 && s'.doneB == s.doneB
    requires HeldB(pc) == if s.cursorB < PhaseB(g, s.job).Total() then Holds(s.cursorB) else Free
    ensures ClaimsB(g, s')
  {
    hide Claims, Shape, Ticket, GateInv, WorkerInv, TaskDoneB, PhaseB;
    var total := PhaseB(g, s.job).Total();
    var held, c := HeldsB(s.workers), (i: nat) => TaskDoneB(g, s, i);
    HeldsMoved(s, s', w, pc);
    assert Claims(held[w := HeldB(pc)], s'.cursorB, s.doneB, total, c) by {
      if s.cursorB < total {
        ClaimTaken(held, w, s.cursorB, s.doneB, total, c);
      } else {
        assert held[w := Free] == held;
        CursorPast(held, s.cursorB, s.doneB, total, c);
      }
    }
    TaskDoneGrows(g, s, s');
    ClaimsKept(HeldsB(s'.workers), s'.cursorB, s'.doneB, total, c, (i: nat) => TaskDoneB(g, s', i));
  }

  lemma StepClaimsB(g: Geometry, s: State, w: nat)
    requires At(g, s, w, ClaimB)
    ensures Inv(g, ClaimStepB(g, s, w))
  {
    hide Claims, ClaimsA, ClaimsB, GateInv;
    var s' := ClaimStepB(g, s, w);
    var pc := s'.workers[w].pc;
    assert Grows(g, s, s');
    if s.cursorB < PhaseB(g, s.job).Total() {
      TaskBounds(PhaseB(g, s.job), s.cursorB);
    }
    assert PcInv(g, s', pc);
    assert s.gateB;
    hide PcInv, Grows;
    KeepClaims(g, s, s', w, pc);
    ClaimKeepsGate(g, s, s', w, pc);
    CursorTakenB(g, s, s', w, pc);
    WorkerMoves(g, s, s', w, pc);
  }

  /** Behind the open gate, an expert's prepared sums, read back as one slice. */
  lemma XsumSlice(g: Geometry, s: State, e: nat)
    requires Shape(g, s) && AllSlots(g, s) && e < s.job.nExperts <= g.cap
    ensures Slice(s.xsum, e * PerXsum(g), PerXsum(g)) == GroupSums(ActOf(g, s.job, e))
  {
    hide ActOf, GroupSumAt, GroupSum, AllSlots, Shape, Slots;
    var p := PerXsum(g);
    SlotSpan(g, s, e);
    var got, want := Slice(s.xsum, e * p, p), GroupSums(ActOf(g, s.job, e));
    assert |got| == |want| == p;
    forall c: nat | c < p ensures got[c] == want[c] {
      SlotIsSum(g, s, e * p + c, e, c);
    }
  }

  /** The sums of one expert lie within the slots. */
  lemma SlotSpan(g: Geometry, s: State, e: nat)
    requires Shape(g, s) && e < s.job.nExperts <= g.cap
    ensures e * PerXsum(g) + PerXsum(g) <= Slots(g, s.job) <= |s.xsum|
  {
    var p := PerXsum(g);
    MulLe(p, e + 1, s.job.nExperts);
    MulLe(p, s.job.nExperts, g.cap);
    assert (e + 1) * p == e * p + p;
  }

  lemma SlotIsSum(g: Geometry, s: State, k: nat, e: nat, c: nat)
    requires AllSlots(g, s) && k < Slots(g, s.job) && c < PerXsum(g) && k == e * PerXsum(g) + c
    ensures k < |s.xsum| && s.xsum[k] == GroupSum(ActOf(g, s.job, e), c)
  {
    hide GroupSumAt, GroupSum;
    assert Slot(g, s, k);
    DivMod(k, PerXsum(g), e, c);
    SumInside(ActOf(g, s.job, e), c);
  }

  lemma SumInside(x: seq<real>, c: nat)
    requires c < CeilDiv(|x|, 32)
    ensures GroupSumAt(x, c) == GroupSum(x, c)
  {
    MulLe(32, c + 1, CeilDiv(|x|, 32));
  }

  /** A phase-B row computed from the shared buffers is the row the expert computes alone. */
  lemma RowValueB(g: Geometry, s: State, e: nat, r: nat)
    requires InvOf(g, s) && s.gateB && e < s.job.nExperts
    ensures s.job.rowB(e, r, Slice(s.act, e * g.nFf, g.nFf), Slice(s.xsum, e * PerXsum(g), PerXsum(g)))
         == OutRow(g, s.job, e, r)
  {
    PhaseAComplete(g, s);
    ActSlice(g, s, e);
    XsumSlice(g, s, e);
  }

  lemma StepRowsB(g: Geometry, s: State, w: nat, i: nat, r: nat)
    requires At(g, s, w, RunB(i, r))
    ensures Inv(g, RowStepB(g, s, w, i, r))
  {
    hide Claims, ClaimsA, ClaimsB, GateInv, Flat, Min, Max;
    var s' := RowStepB(g, s, w, i, r);
    var b := PhaseB(g, s.job);
    TaskBounds(b, i);
    if r < b.Hi(i) {
      RowValueB(g, s, b.Expert(i), r);
      StoreRowB(g, s, s', b.Expert(i), r);
      assert RowsB(g, s', i, r + 1);
      RowStepKeeps(g, s, s', w, RunB(i, r + 1));
    } else {
      RowStepKeeps(g, s, s', w, CountB(i));
    }
  }

  /** Counting the task in hand. */
  lemma TaskCountedB(g: Geometry, s: State, s': State, w: nat, pc: Pc, i: nat)
    requires InvOf(g, s) && Moves(s, s', w, pc) && Grows(g, s, s')
    requires HeldB(s.workers[w].pc) == Holds(i) && HeldB(pc).Free? && TaskDoneB(g, s, i)
    requires s'.cursorB == s.cursorB && s'.doneB == s.doneB + 1
    ensures s.doneB < PhaseB(g, s.job).Total() && ClaimsB(g, s')
  {
    hide Claims, Shape, Ticket, GateInv, WorkerInv, TaskDoneB, PhaseB;
    var total := PhaseB(g, s.job).Total();
    var held, c := HeldsB(s.workers), (t: nat) => TaskDoneB(g, s, t);
    HolderKeepsPhaseOpen(held, w, s.cursorB, s.doneB, total, c);
    ClaimCounted(held, w, s.cursorB, s.doneB, total, c);
    HeldsMoved(s, s', w, pc);
    TaskDoneGrows(g, s, s');
    ClaimsKept(HeldsB(s'.workers), s'.cursorB, s'.doneB, total, c, (t: nat) => TaskDoneB(g, s', t));
  }

  lemma StepCountsB(g: Geometry, s: State, w: nat, i: nat)
    requires At(g, s, w, CountB(i))
    ensures Inv(g, WorkerStep(g, s, w))
  {
    hide Claims, ClaimsA, ClaimsB, GateInv, TaskDoneB;
    var s' := WorkerStep(g, s, w);
    assert s.gateB;
    assert Grows(g, s, s') && PcInv(g, s', ClaimB);
    hide PcInv, Grows;
    TaskCountedB(g, s, s', w, ClaimB, i);
    KeepClaims(g, s, s', w, ClaimB);
    GateKept(g, s, s', w, ClaimB);
    WorkerMoves(g, s, s', w, ClaimB);
  }
}
