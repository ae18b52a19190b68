/** When a phase counter tells the truth: its value is the number of synchronous runs still attached to
    it exactly as long as no job finishes while another run of the same job object is outstanding. */
module PhaseCounters {
  import opened JobModel
  import opened Scheduler
  import opened JobConservation

  /** A job an actor carries out of the queue of phase p belongs to phase p. */
  predicate LoopSorted(l: Loop, p: Phase, cycle: nat) {
    match l
    case Popped(j) => j.phase == p
    case Deferring(j) => j.phase == p
    case Counted(j, c) => j.phase == p && c <= cycle
    case _ => true
  }

  predicate RunSorted(r: Run, cycle: nat) {
    r.cycle <= cycle && (r.pc.InLoop? ==> LoopSorted(r.pc.loop, r.pc.queue, cycle))
  }

  predicate QueueSorted(q: seq<Job>, p: Phase) {
    forall k :: 0 <= k < |q| ==> q[k].phase == p
  }

  predicate Sorted(s: System) {
    && QueueSorted(s.queues.init, Init) && QueueSorted(s.queues.main, Main)
    && QueueSorted(s.queues.cleanUp, CleanUp)
    && (s.manager.Looping? ==> LoopSorted(s.manager.loop, s.manager.phase, s.cycle))
    && (forall i :: 0 <= i < |s.runs| ==> RunSorted(s.runs[i], s.cycle))
  }

  predicate Agree(count: int, held: multiset<Job>) {
    count == |held|
  }

  /** Every phase counter equals the number of its occurrences in the jobs' counter queues. */
  predicate CountersAgree(s: System) {
    && Agree(s.counts.init, s.held.init) && Agree(s.counts.main, s.held.main)
    && Agree(s.counts.cleanUp, s.held.cleanUp)
  }

  function ManagerCounted(m: ManagerPc, p: Phase, j: Job, cycle: nat): nat {
    if m.Looping? && m.phase == p then CarriedCounted(m.loop, j, cycle) else 0
  }

  /** Synchronous runs of j not yet finished that the counter of phase p in this cycle stands for. */
  function Outstanding(s: System, p: Phase, j: Job): nat {
    Total(Attached(j, p, s.cycle), s.runs) + ManagerCounted(s.manager, p, j, s.cycle)
  }

  /** Entries of j in the counter queues of phase p, less the runs they stand for. */
  function Gap(s: System, p: Phase, j: Job): int {
    s.held.At(p)[j] - Outstanding(s, p, j)
  }

  /** Each job has as many counter entries as outstanding runs, in every phase. */
  ghost predicate Exact(s: System) {
    forall p: Phase, j: Job :: Gap(s, p, j) == 0
  }

  /** Finishing job j is safe when run i is the only outstanding run of that job object. */
  ghost predicate NoSibling(s: System, i: nat)
    requires i < |s.runs|
  {
    var j := s.runs[i].job;
    forall p: Phase :: Outstanding(s, p, j) == At(Attached(j, p, s.cycle), s.runs[i])
  }

  ghost predicate FinishesAlone(s: System, a: Action)
    requires Enabled(s, a)
  {
    a.Finish? ==> NoSibling(s, a.run)
  }

  // ---- Sortedness ----

  lemma LoopKeepsSorted(s: System, p: Phase, l: Loop, ready: bool)
    requires Sorted(s) && !l.Exited? && LoopSorted(l, p, s.cycle)
    ensures var (s', l') := LoopStep(s, p, l, ready);
      Sorted(s') && s'.cycle == s.cycle && s'.manager == s.manager && LoopSorted(l', p, s.cycle)
  {
    if l.Top? && s.queues.At(p) != [] {
      var q := s.queues.At(p);
      assert QueueSorted(q[1..], p);
    }
  }

  lemma AdvanceKeepsSorted(s: System, i: nat, pc: RunPc)
    requires Sorted(s) && i < |s.runs| && (pc.InLoop? ==> LoopSorted(pc.loop, pc.queue, s.cycle))
    ensures Sorted(Advance(s, i, pc))
  {
  }

  lemma WithoutSorted(q: seq<Job>, id: string, p: Phase)
    requires QueueSorted(q, p)
    ensures QueueSorted(Without(q, id), p)
  {
    WithoutSplits(q, id);
    forall k | 0 <= k < |Without(q, id)| ensures Without(q, id)[k].phase == p {
      assert Without(q, id)[k] in q;
    }
  }

  lemma ManageKeepsSorted(s: System, ready: bool)
    requires Sorted(s) && ManageEnabled(s)
    ensures Sorted(ManageStep(s, ready))
  {
    if s.manager.Looping? {
      LoopKeepsSorted(s, s.manager.phase, s.manager.loop, ready);
      hide LoopStep;
    } else {
      hide LoopStep, LoopSorted;
    }
  }

  lemma KickOnKeepsSorted(s: System, i: nat, ready: bool)
    requires Sorted(s) && Enabled(s, KickOn(i, ready))
    ensures Sorted(KickOnStep(s, i, ready))
  {
    match s.runs[i].pc
    case KickErased(j) => AdvanceKeepsSorted(Push(s, j), i, KickPushed(j.phase));
    case KickPushed(p) => AdvanceKeepsSorted(s, i, if s.state == CycleOf(p) then InLoop(p, Top) else Running);
    case InLoop(p, l) =>
      LoopKeepsSorted(s, p, l, ready);
      var (s', l') := LoopStep(s, p, l, ready);
      AdvanceKeepsSorted(s', i, if l'.Exited? then Running else InLoop(p, l'));
      hide LoopStep, Sorted;
  }

  lemma SortedFrame(s: System, s': System)
    requires Sorted(s)
    requires s'.queues == s.queues && s'.manager == s.manager && s'.runs == s.runs && s'.cycle == s.cycle
    ensures Sorted(s')
  {
  }

  lemma QueuesKeepSorted(s: System, a: Action)
    requires Sorted(s) && Enabled(s, a) && (a.KickOutside? || a.DetachSweep?)
    ensures Sorted(Step(s, a))
  {
    if a.DetachSweep? {
      WithoutSorted(s.queues.At(a.queue), a.id, a.queue);
    }
    hide Without, Only, RunSorted, LoopSorted;
  }

  lemma StepKeepsSorted(s: System, a: Action)
    requires Sorted(s) && Enabled(s, a)
    ensures Sorted(Step(s, a))
  {
    hide Sorted, ManageStep, KickOnStep, Without, Only;
    match a
    case Manage(ready) => ManageKeepsSorted(s, ready);
    case Begin(i) => AdvanceKeepsSorted(s, i, Running);
    case Kick(i, j) =>
      AdvanceKeepsSorted(s, i, KickErased(j));
      SortedFrame(Advance(s, i, KickErased(j)), Step(s, a));
    case KickOn(i, ready) => KickOnKeepsSorted(s, i, ready);
    case Return(i, c) => AdvanceKeepsSorted(s, i, Returned(c));
    case Settle(i) =>
      AdvanceKeepsSorted(s, i, SettleStep(s, i).runs[i].pc);
      SortedFrame(Advance(s, i, SettleStep(s, i).runs[i].pc), Step(s, a));
    case Finish(i) =>
      AdvanceKeepsSorted(s, i, Done(s.runs[i].pc.outcome));
      SortedFrame(Advance(s, i, Done(s.runs[i].pc.outcome)), Step(s, a));
    case KickOutside(_) => QueuesKeepSorted(s, a);
    case DetachSweep(_, _) => QueuesKeepSorted(s, a);
    case _ => SortedFrame(s, Step(s, a));
  }

  // ---- Counter against counter queues ----

  lemma DropAgrees(count: int, held: multiset<Job>, j: Job)
    requires Agree(count, held)
    ensures Agree(count - held[j], held[j := 0])
  {
  }

  lemma LoopAgrees(s: System, p: Phase, l: Loop, ready: bool)
    requires CountersAgree(s) && !l.Exited?
    ensures CountersAgree(LoopStep(s, p, l, ready).0)
  {
    if l.Popped? && ready && !l.job.async {
      assert |s.held.At(p) + multiset{l.job}| == |s.held.At(p)| + 1;
    } else {
      hide Agree;
    }
  }

  lemma ManageAgrees(s: System, ready: bool)
    requires CountersAgree(s) && ManageEnabled(s)
    ensures CountersAgree(ManageStep(s, ready))
  {
    if s.manager.Looping? {
      LoopAgrees(s, s.manager.phase, s.manager.loop, ready);
      hide LoopStep, Agree;
    } else if s.manager.Draining? && s.next == [] {
      hide LoopStep;
    } else {
      hide LoopStep, Agree;
    }
  }

  lemma KickOnAgrees(s: System, i: nat, ready: bool)
    requires CountersAgree(s) && Enabled(s, KickOn(i, ready))
    ensures CountersAgree(KickOnStep(s, i, ready))
  {
    if s.runs[i].pc.InLoop? {
      LoopAgrees(s, s.runs[i].pc.queue, s.runs[i].pc.loop, ready);
    }
    hide LoopStep, Agree;
  }

  /** JobCounter::Decrease never takes a phase counter below zero, whatever the jobs do. */
  lemma StepKeepsAgreement(s: System, a: Action)
    requires CountersAgree(s) && Enabled(s, a)
    ensures CountersAgree(Step(s, a))
  {
    hide Agree, LoopStep, Without, Only;
    match a
    case Manage(ready) => ManageAgrees(s, ready); hide ManageStep;
    case KickOn(i, ready) => KickOnAgrees(s, i, ready); hide KickOnStep;
    case Finish(i) =>
      var j := s.runs[i].job;
      DropAgrees(s.counts.init, s.held.init, j);
      DropAgrees(s.counts.main, s.held.main, j);
      DropAgrees(s.counts.cleanUp, s.held.cleanUp, j);
    case _ =>
  }

  // ---- Counter queues against outstanding runs ----

  lemma LoopGap(s: System, p: Phase, l: Loop, ready: bool, q: Phase, j: Job)
    requires !l.Exited? && LoopSorted(l, p, s.cycle)
    ensures var (s', l') := LoopStep(s, p, l, ready); var w := Attached(j, q, s.cycle);
      s'.cycle == s.cycle && s'.manager == s.manager &&
      s'.held.At(q)[j] - Total(w, s'.runs) - (if p == q then CarriedCounted(l', j, s.cycle) else 0)
      == s.held.At(q)[j] - Total(w, s.runs) - (if p == q then CarriedCounted(l, j, s.cycle) else 0)
  {
    hide Total;
    match l
    case Top => hide At;
    case Popped(x) => hide At;
    case Deferring(x) => hide At;
    case Counted(x, c) =>
      TotalAppend(Attached(j, q, s.cycle), s.runs, Run(x, c, Awaiting));
  }

  lemma ManageLoopGap(s: System, ready: bool, p: Phase, j: Job)
    requires Sorted(s) && ManageEnabled(s) && s.manager.Looping?
    ensures Gap(ManageStep(s, ready), p, j) == Gap(s, p, j)
  {
    LoopGap(s, s.manager.phase, s.manager.loop, ready, p, j);
    hide Total, LoopStep, Sorted;
  }

  /** New counters: nothing of an earlier cycle is attached to them. */
  lemma NewCountersGap(s: System, p: Phase, j: Job)
    requires Sorted(s) && s.manager.Draining? && s.next == []
    ensures Gap(ManageStep(s, true), p, j) == 0
  {
    var w := Attached(j, p, s.cycle + 1);
    forall i | 0 <= i < |s.runs| ensures At(w, s.runs[i]) == 0 {
      assert RunSorted(s.runs[i], s.cycle);
    }
    TotalZero(w, s.runs);
    hide Total, At;
  }

  lemma ManageGap(s: System, ready: bool, p: Phase, j: Job)
    requires Sorted(s) && ManageEnabled(s)
    ensures Gap(ManageStep(s, ready), p, j) == Gap(s, p, j) || Gap(ManageStep(s, ready), p, j) == 0
  {
    if s.manager.Looping? {
      ManageLoopGap(s, ready, p, j);
    } else if s.manager.Draining? && s.next == [] {
      NewCountersGap(s, p, j);
    } else {
      hide Total, LoopStep, Sorted, CarriedCounted;
    }
  }

  lemma LoopGapAll(s: System, q: Phase, l: Loop, ready: bool, p: Phase, j: Job)
    requires !l.Exited? && LoopSorted(l, q, s.cycle)
    ensures var (s', l') := LoopStep(s, q, l, ready);
      s'.cycle == s.cycle &&
      Gap(s', p, j) - (if p == q then CarriedCounted(l', j, s.cycle) else 0)
      == Gap(s, p, j) - (if p == q then CarriedCounted(l, j, s.cycle) else 0)
  {
    LoopGap(s, q, l, ready, p, j);
    hide Total, LoopStep, CarriedCounted, ManagerCounted;
  }

  lemma MoveGap(s: System, i: nat, pc: RunPc, p: Phase, j: Job)
    requires i < |s.runs|
    ensures var w := Attached(j, p, s.cycle);
      Gap(Advance(s, i, pc), p, j) == Gap(s, p, j) + At(w, s.runs[i]) - At(w, s.runs[i].(pc := pc))
  {
    Moves(Attached(j, p, s.cycle), s, i, pc);
    hide Total, At, ManagerCounted;
  }

  lemma KickLoopGap(s: System, i: nat, ready: bool, p: Phase, j: Job)
    requires Sorted(s) && i < |s.runs| && s.runs[i].pc.InLoop? && !s.runs[i].pc.loop.Exited?
    ensures Gap(KickOnStep(s, i, ready), p, j) == Gap(s, p, j)
  {
    var q, l := s.runs[i].pc.queue, s.runs[i].pc.loop;
    assert RunSorted(s.runs[i], s.cycle);
    var (s', l') := LoopStep(s, q, l, ready);
    var pc' := if l'.Exited? then Running else InLoop(q, l');
    LoopGapAll(s, q, l, ready, p, j);
    LoopKeepsPcs(s, q, l, ready);
    MoveGap(s', i, pc', p, j);
    var w := Attached(j, p, s.cycle);
    assert At(w, s.runs[i].(pc := pc')) - At(w, s.runs[i])
        == if q == p then CarriedCounted(l', j, s.cycle) - CarriedCounted(l, j, s.cycle) else 0;
    hide Gap, LoopStep, Sorted, At, CarriedCounted;
  }

  /** A run that neither loops nor finishes stays attached. */
  lemma AdvanceGap(s: System, i: nat, pc: RunPc, p: Phase, j: Job)
    requires i < |s.runs|
    requires !s.runs[i].pc.Done? && !pc.Done? && !s.runs[i].pc.InLoop? && (pc.InLoop? ==> pc.loop.Top?)
    ensures Gap(Advance(s, i, pc), p, j) == Gap(s, p, j)
  {
    Moves(Attached(j, p, s.cycle), s, i, pc);
    hide Total;
  }

  lemma KickOnGap(s: System, i: nat, ready: bool, p: Phase, j: Job)
    requires Sorted(s) && Enabled(s, KickOn(i, ready))
    ensures Gap(KickOnStep(s, i, ready), p, j) == Gap(s, p, j)
  {
    match s.runs[i].pc
    case KickErased(x) => AdvanceGap(Push(s, x), i, KickPushed(x.phase), p, j); hide Total;
    case KickPushed(q) =>
      AdvanceGap(s, i, if s.state == CycleOf(q) then InLoop(q, Top) else Running, p, j); hide Total;
    case InLoop(q, l) => KickLoopGap(s, i, ready, p, j); hide Total;
  }

  /** FinishJob empties the job's counter queue, so it releases every outstanding run of the job at once. */
  lemma FinishGap(s: System, i: nat, p: Phase, j: Job)
    requires i < |s.runs| && s.runs[i].pc.Finishing?
    ensures var w := Attached(j, p, s.cycle);
      Gap(Step(s, Finish(i)), p, j)
      == if j == s.runs[i].job then At(w, s.runs[i]) - Outstanding(s, p, j) else Gap(s, p, j)
  {
    Moves(Attached(j, p, s.cycle), s, i, Done(s.runs[i].pc.outcome));
    hide Total;
  }

  lemma GapFrame(s: System, s': System, p: Phase, j: Job)
    requires s'.held == s.held && s'.manager == s.manager && s'.runs == s.runs && s'.cycle == s.cycle
    ensures Gap(s', p, j) == Gap(s, p, j)
  {
    hide Total, ManagerCounted;
  }

  lemma SettleGap(s: System, i: nat, p: Phase, j: Job)
    requires Enabled(s, Settle(i))
    ensures Gap(SettleStep(s, i), p, j) == Gap(s, p, j)
  {
    var s' := SettleStep(s, i);
    AdvanceGap(s, i, s'.runs[i].pc, p, j);
    GapFrame(Advance(s, i, s'.runs[i].pc), s', p, j);
    hide Gap;
  }

  lemma StepGap(s: System, a: Action, p: Phase, j: Job)
    requires Sorted(s) && Enabled(s, a) && !a.Finish?
    ensures Gap(Step(s, a), p, j) == Gap(s, p, j) || Gap(Step(s, a), p, j) == 0
  {
    hide Gap, Sorted, ManageStep, KickOnStep, SettleStep, Without, Only;
    match a
    case Manage(ready) => ManageGap(s, ready, p, j);
    case Begin(i) => AdvanceGap(s, i, Running, p, j);
    case Kick(i, x) =>
      AdvanceGap(s, i, KickErased(x), p, j);
      GapFrame(Advance(s, i, KickErased(x)), Step(s, a), p, j);
    case KickOn(i, ready) => KickOnGap(s, i, ready, p, j);
    case Return(i, c) => AdvanceGap(s, i, Returned(c), p, j);
    case Settle(i) => SettleGap(s, i, p, j);
    case Finish(_) =>
    case KickOutside(_) => GapFrame(s, Step(s, a), p, j);
    case DetachMark(_) => GapFrame(s, Step(s, a), p, j);
    case DetachSweepNext(_) => GapFrame(s, Step(s, a), p, j);
    case DetachSweep(_, _) => GapFrame(s, Step(s, a), p, j);
  }

  /** One step keeps the counters exact if and only if it does not finish a job that has another
      outstanding run. */
  lemma StepExactIff(s: System, a: Action)
    requires Sorted(s) && Enabled(s, a) && Exact(s)
    ensures Exact(Step(s, a)) <==> FinishesAlone(s, a)
  {
    var s' := Step(s, a);
    hide Total, Step, Outstanding, At, Gap;
    if a.Finish? {
      forall p: Phase, j: Job
        ensures Gap(s', p, j) == if j == s.runs[a.run].job
          then At(Attached(j, p, s.cycle), s.runs[a.run]) - Outstanding(s, p, j) else 0 {
        FinishGap(s, a.run, p, j);
      }
    } else {
      forall p: Phase, j: Job ensures Gap(s', p, j) == 0 {
        StepGap(s, a, p, j);
      }
    }
  }

  /** Every entry in a counter queue stands for an outstanding run, though not every run need have one. */
  ghost predicate NoOrphans(s: System) {
    forall p: Phase, j: Job :: Gap(s, p, j) <= 0
  }

  /** That much holds whatever finishes beside whatever. */
  lemma StepKeepsNoOrphans(s: System, a: Action)
    requires Sorted(s) && Enabled(s, a) && NoOrphans(s)
    ensures NoOrphans(Step(s, a))
  {
    hide Total, Step, At, Gap;
    forall p: Phase, j: Job ensures Gap(Step(s, a), p, j) <= 0 {
      if a.Finish? {
        FinishGap(s, a.run, p, j);
        TotalCovers(Attached(j, p, s.cycle), s.runs, a.run);
      } else {
        StepGap(s, a, p, j);
      }
    }
  }

  /** No job finishes while a sibling run is outstanding, all along a run of the system. */
  ghost predicate AllFinishAlone(s: System, acts: seq<Action>)
    requires Valid(s, acts)
    decreases |acts|
  {
    acts == [] || (FinishesAlone(s, acts[0]) && AllFinishAlone(Step(s, acts[0]), acts[1..]))
  }

  ghost predicate AlwaysExact(s: System, acts: seq<Action>)
    requires Valid(s, acts)
    decreases |acts|
  {
    Exact(s) && (acts == [] || AlwaysExact(Step(s, acts[0]), acts[1..]))
  }

  /** Over whole runs, with any kicks from anywhere: the phase counters are exact in every state if and
      only if no job ever finishes while another run of the same job object is outstanding. */
  lemma {:induction false} ExactIffFinishAlone(s: System, acts: seq<Action>)
    requires Sorted(s) && Exact(s) && Valid(s, acts)
    ensures AlwaysExact(s, acts) <==> AllFinishAlone(s, acts)
    decreases |acts|
  {
    if acts == [] {
    } else {
      StepExactIff(s, acts[0]);
      StepKeepsSorted(s, acts[0]);
      if FinishesAlone(s, acts[0]) {
        ExactIffFinishAlone(Step(s, acts[0]), acts[1..]);
      } else {
        assert !Exact(Step(s, acts[0]));
      }
    }
  }

  // ---- Where a sorted system keeps a job ----

  lemma SortedQueue(q: seq<Job>, p: Phase, j: Job)
    requires QueueSorted(q, p) && j.phase != p
    ensures Times(q, j) == 0
  {
    assert j !in q;
  }

  lemma QueuedInItsPhase(s: System, j: Job)
    requires Sorted(s)
    ensures Queued(s.queues, j) == Times(s.queues.At(j.phase), j)
  {
    if j.phase != Init { SortedQueue(s.queues.init, Init, j); }
    if j.phase != Main { SortedQueue(s.queues.main, Main, j); }
    if j.phase != CleanUp { SortedQueue(s.queues.cleanUp, CleanUp, j); }
    hide Times, QueueSorted;
  }
}
