/** The phase barrier: a phase is left only when its queue is empty, its counter is zero and none of its
    synchronous jobs is scheduled or running. */
module PhaseBarrier {
  import opened JobModel
  import opened Scheduler
  import opened JobConservation
  import opened PhaseCounters

  /** The kicks the barrier is meant for: jobs that kick are synchronous and belong to the running phase;
      other threads kick jobs of phases that are not running. */
  predicate KicksFromPhase(s: System, a: Action)
    requires Enabled(s, a)
  {
    match a
    case Kick(i, _) => !s.runs[i].job.async && s.state == CycleOf(s.runs[i].job.phase)
    case _ => true
  }

  predicate WorkingOn(m: ManagerPc, p: Phase) {
    (m.Looping? || m.Waiting?) && m.phase == p
  }

  predicate Kicking(pc: RunPc) {
    pc.KickErased? || pc.KickPushed? || pc.InLoop?
  }

  /** A synchronous job that is scheduled or running. */
  predicate Live(r: Run) {
    !r.job.async && !r.pc.Done?
  }

  predicate LoopCurrent(l: Loop, cycle: nat) {
    !l.Exited? && (l.Counted? ==> l.cycle == cycle)
  }

  predicate RunOk(s: System, r: Run) {
    && (Live(r) ==> WorkingOn(s.manager, r.job.phase) && r.cycle == s.cycle)
    && (Kicking(r.pc) ==> !r.job.async)
    && (r.pc.InLoop? ==> s.state == CycleOf(r.pc.queue) && LoopCurrent(r.pc.loop, s.cycle))
  }

  predicate StateMatches(s: System) {
    match s.manager
    case Checking(p) => s.state == CycleOf(p)
    case Looping(p, l) => s.state == CycleOf(p) && LoopCurrent(l, s.cycle)
    case Waiting(p) => s.state == CycleOf(p)
    case Leaving(p) => s.state == CycleOf(p)
    case _ => s.state == Ready
  }

  predicate RunsOk(s: System) {
    forall i :: 0 <= i < |s.runs| ==> RunOk(s, s.runs[i])
  }

  /** This run has queued a job of phase p and will itself empty the queue again. */
  predicate Serving(r: Run, p: Phase) {
    r.pc == KickPushed(p) || (r.pc.InLoop? && r.pc.queue == p)
  }

  ghost predicate Served(s: System, p: Phase) {
    s.queues.At(p) == [] || exists i :: 0 <= i < |s.runs| && Serving(s.runs[i], p)
  }

  ghost predicate QueueServed(s: System) {
    && (s.manager.Waiting? ==> Served(s, s.manager.phase))
    && (s.manager.Leaving? ==> s.queues.At(s.manager.phase) == [] && s.counts.At(s.manager.phase) == 0)
  }

  /** All of the invariant that does not depend on who finishes beside whom. */
  ghost predicate Stands(s: System) {
    Sorted(s) && CountersAgree(s) && StateMatches(s) && RunsOk(s) && QueueServed(s)
  }

  ghost predicate Barrier(s: System) {
    Stands(s) && Exact(s)
  }

  ghost predicate NobodyLive(s: System) {
    forall i :: 0 <= i < |s.runs| ==> !Live(s.runs[i])
  }

  /** While the manager is at none of its working points, no synchronous run is live. */
  lemma NoneLive(s: System)
    requires RunsOk(s) && !s.manager.Looping? && !s.manager.Waiting?
    ensures NobodyLive(s)
  {
    forall i | 0 <= i < |s.runs| ensures !Live(s.runs[i]) {
      assert RunOk(s, s.runs[i]);
    }
  }

  /** Without live runs of phase p the counter of p is zero. */
  lemma NoneLiveCountZero(s: System, p: Phase)
    requires Stands(s) && NoOrphans(s) && !s.manager.Looping? && NobodyLive(s)
    ensures s.counts.At(p) == 0
  {
    forall j: Job ensures s.held.At(p)[j] == 0 {
      forall i | 0 <= i < |s.runs| ensures At(Attached(j, p, s.cycle), s.runs[i]) == 0 {
        assert !Live(s.runs[i]) && RunOk(s, s.runs[i]);
      }
      TotalZero(Attached(j, p, s.cycle), s.runs);
      assert Gap(s, p, j) <= 0;
    }
    assert s.held.At(p) == multiset{};
  }

  /** A zero counter means no live run of the running phase, hence none that could still kick. */
  lemma CountZeroNoneLive(s: System, p: Phase)
    requires Barrier(s) && s.manager == Waiting(p) && s.counts.At(p) < 1
    ensures NobodyLive(s)
  {
    assert |s.held.At(p)| == 0;
    forall i | 0 <= i < |s.runs| ensures !Live(s.runs[i]) {
      var r := s.runs[i];
      assert RunOk(s, r) && Gap(s, p, r.job) == 0;
      TotalCovers(Attached(r.job, p, s.cycle), s.runs, i);
    }
  }

  /** Without live runs nobody is about to serve a queue, so it has been served. */
  lemma NoneLiveQueueEmpty(s: System, p: Phase)
    requires Stands(s) && s.manager == Waiting(p) && NobodyLive(s)
    ensures s.queues.At(p) == []
  {
    forall i | 0 <= i < |s.runs| ensures !Serving(s.runs[i], p) {
      assert RunOk(s, s.runs[i]);
      assert !Live(s.runs[i]);
    }
  }

  // ---- One step ----

  lemma KickingIsLive(s: System, i: nat)
    requires RunsOk(s) && i < |s.runs| && Kicking(s.runs[i].pc)
    ensures Live(s.runs[i]) && WorkingOn(s.manager, s.runs[i].job.phase) && s.runs[i].cycle == s.cycle
  {
    assert RunOk(s, s.runs[i]);
  }

  /** What a scheduling section does to the runs: at most one new run, of the loop's phase. */
  lemma LoopRuns(s: System, p: Phase, l: Loop, ready: bool)
    requires LoopCurrent(l, s.cycle) && LoopSorted(l, p, s.cycle)
    ensures var (s', l') := LoopStep(s, p, l, ready);
      && s'.state == s.state && s'.manager == s.manager && s'.cycle == s.cycle
      && (l'.Exited? ==> s'.queues.At(p) == [] && s' == s)
      && (!l'.Exited? ==> LoopCurrent(l', s.cycle))
      && |s.runs| <= |s'.runs| <= |s.runs| + 1
      && (forall i :: 0 <= i < |s.runs| ==> s'.runs[i] == s.runs[i])
      && (|s'.runs| > |s.runs| ==> var r := s'.runs[|s.runs|];
            r.pc == Awaiting && r.cycle == s.cycle && r.job.phase == p)
      && (forall q: Phase :: q != p ==> s'.queues.At(q) == s.queues.At(q))
      && s'.counts.init >= s.counts.init && s'.counts.main >= s.counts.main
      && s'.counts.cleanUp >= s.counts.cleanUp
  {
  }

  lemma ManageLoopOk(s: System, ready: bool)
    requires Stands(s) && s.manager.Looping? && ManageEnabled(s)
    ensures var s' := ManageStep(s, ready); StateMatches(s') && RunsOk(s') && QueueServed(s')
  {
    var p := s.manager.phase;
    LoopRuns(s, p, s.manager.loop, ready);
    hide LoopStep, Sorted, CountersAgree, Exact;
    var s' := ManageStep(s, ready);
    forall i | 0 <= i < |s'.runs| ensures RunOk(s', s'.runs[i]) {
      if i < |s.runs| { assert RunOk(s, s.runs[i]); }
    }
  }

  lemma ManageOk(s: System, ready: bool)
    requires Stands(s) && NoOrphans(s) && ManageEnabled(s) && (s.manager.Waiting? ==> NobodyLive(s))
    ensures var s' := ManageStep(s, ready); StateMatches(s') && RunsOk(s') && QueueServed(s')
  {
    if s.manager.Looping? {
      ManageLoopOk(s, ready);
    } else {
      if s.manager.Waiting? {
        NoneLiveQueueEmpty(s, s.manager.phase);
        NoneLiveCountZero(s, s.manager.phase);
      } else {
        NoneLive(s);
        if s.manager.Checking? { NoneLiveCountZero(s, s.manager.phase); }
      }
      assert forall i :: 0 <= i < |s.runs| ==> RunOk(s, s.runs[i]) && !Live(s.runs[i]) && !Kicking(s.runs[i].pc);
      hide Sorted, CountersAgree, NoOrphans, LoopStep;
    }
  }

  /** Moving one run on, when its new place is allowed and it does not leave a queue unserved. */
  lemma AdvanceOk(s: System, i: nat, pc: RunPc)
    requires StateMatches(s) && RunsOk(s) && QueueServed(s) && i < |s.runs|
    requires RunOk(s, s.runs[i].(pc := pc))
    requires s.manager.Waiting? && Serving(s.runs[i], s.manager.phase) ==>
      Serving(s.runs[i].(pc := pc), s.manager.phase) || s.queues.At(s.manager.phase) == []
    ensures var s' := Advance(s, i, pc); StateMatches(s') && RunsOk(s') && QueueServed(s')
  {
    var s' := Advance(s, i, pc);
    forall k | 0 <= k < |s'.runs| ensures RunOk(s', s'.runs[k]) {
      assert RunOk(s, s.runs[k]) && RunOk(s, s.runs[i].(pc := pc));
    }
    if s.manager.Waiting? && s.queues.At(s.manager.phase) != [] {
      var k :| 0 <= k < |s.runs| && Serving(s.runs[k], s.manager.phase);
      assert Serving(s'.runs[k], s.manager.phase);
    }
  }

  lemma KickPushOk(s: System, i: nat, x: Job)
    requires Stands(s) && i < |s.runs| && s.runs[i].pc == KickErased(x)
    ensures var s' := KickOnStep(s, i, true); StateMatches(s') && RunsOk(s') && QueueServed(s')
  {
    KickingIsLive(s, i);
    hide Sorted, CountersAgree, Exact;
    var s' := KickOnStep(s, i, true);
    assert RunOk(s, s.runs[i]);
    forall k | 0 <= k < |s'.runs| ensures RunOk(s', s'.runs[k]) {
      assert RunOk(s, s.runs[k]);
    }
    assert Serving(s'.runs[i], x.phase);
    if s.manager.Waiting? && s.manager.phase != x.phase && s.queues.At(s.manager.phase) != [] {
      var k :| 0 <= k < |s.runs| && Serving(s.runs[k], s.manager.phase);
      assert Serving(s'.runs[k], s.manager.phase);
    }
  }

  lemma KickCheckOk(s: System, i: nat)
    requires Stands(s) && i < |s.runs| && s.runs[i].pc.KickPushed?
    ensures var s' := KickOnStep(s, i, true); StateMatches(s') && RunsOk(s') && QueueServed(s')
  {
    KickingIsLive(s, i);
    assert RunOk(s, s.runs[i]);
    var p := s.runs[i].pc.queue;
    AdvanceOk(s, i, if s.state == CycleOf(p) then InLoop(p, Top) else Running);
  }

  lemma KickLoopOk(s: System, i: nat, ready: bool)
    requires Stands(s) && i < |s.runs| && s.runs[i].pc.InLoop? && !s.runs[i].pc.loop.Exited?
    ensures var s' := KickOnStep(s, i, ready); StateMatches(s') && RunsOk(s') && QueueServed(s')
  {
    KickingIsLive(s, i);
    var p, l := s.runs[i].pc.queue, s.runs[i].pc.loop;
    assert RunOk(s, s.runs[i]) && RunSorted(s.runs[i], s.cycle);
    LoopRuns(s, p, l, ready);
    var (s1, l') := LoopStep(s, p, l, ready);
    hide LoopStep, Sorted, CountersAgree, Exact;
    forall k | 0 <= k < |s1.runs| ensures RunOk(s1, s1.runs[k]) {
      if k < |s.runs| { assert RunOk(s, s.runs[k]); }
    }
    assert Serving(s1.runs[i], p);
    AdvanceOk(s1, i, if l'.Exited? then Running else InLoop(p, l'));
  }

  lemma KickOnOk(s: System, i: nat, ready: bool)
    requires Stands(s) && Enabled(s, KickOn(i, ready))
    ensures var s' := KickOnStep(s, i, ready); StateMatches(s') && RunsOk(s') && QueueServed(s')
  {
    hide RunsOk, QueueServed, StateMatches;
    match s.runs[i].pc
    case KickErased(x) => KickPushOk(s, i, x);
    case KickPushed(p) => KickCheckOk(s, i);
    case InLoop(p, l) => KickLoopOk(s, i, ready);
  }

  lemma FinishOk(s: System, i: nat)
    requires Stands(s) && i < |s.runs| && s.runs[i].pc.Finishing?
    ensures var s' := Step(s, Finish(i)); StateMatches(s') && RunsOk(s') && QueueServed(s')
  {
    AdvanceOk(s, i, Done(s.runs[i].pc.outcome));
    var s1, s' := Advance(s, i, Done(s.runs[i].pc.outcome)), Step(s, Finish(i));
    if s.manager.Leaving? {
      assert |s.held.At(s.manager.phase)| == 0;
    }
    hide Sorted, Exact;
    forall k | 0 <= k < |s'.runs| ensures RunOk(s', s'.runs[k]) {
      assert RunOk(s1, s1.runs[k]);
    }
    assert s'.runs == s1.runs && s'.queues == s1.queues && s'.manager == s1.manager && s'.state == s1.state;
    if s'.manager.Waiting? {
      assert Served(s1, s1.manager.phase);
    }
  }

  /** Steps that touch neither runs, counters nor the manager, and only shrink queues. */
  lemma ShrinkOk(s: System, s': System)
    requires StateMatches(s) && RunsOk(s) && QueueServed(s)
    requires s'.state == s.state && s'.manager == s.manager && s'.runs == s.runs && s'.cycle == s.cycle
    requires s'.counts == s.counts && forall p: Phase :: s.queues.At(p) == [] ==> s'.queues.At(p) == []
    ensures StateMatches(s') && RunsOk(s') && QueueServed(s')
  {
    forall k | 0 <= k < |s'.runs| ensures RunOk(s', s'.runs[k]) {
      assert RunOk(s, s.runs[k]);
    }
  }

  lemma KickOutsideOk(s: System, x: Job)
    requires Stands(s) && Enabled(s, KickOutside(x))
    ensures var s' := Step(s, KickOutside(x)); StateMatches(s') && RunsOk(s') && QueueServed(s')
  {
    var s' := Step(s, KickOutside(x));
    hide Sorted, Exact, CountersAgree;
    forall k | 0 <= k < |s'.runs| ensures RunOk(s', s'.runs[k]) {
      assert RunOk(s, s.runs[k]);
    }
  }

  /** All this survives as long as the manager does not leave a phase with live runs. */
  lemma StepStands(s: System, a: Action)
    requires Stands(s) && NoOrphans(s) && Enabled(s, a) && KicksFromPhase(s, a)
    requires a.Manage? && s.manager.Waiting? ==> NobodyLive(s)
    ensures Stands(Step(s, a))
  {
    hide Step, Sorted, CountersAgree, StateMatches, RunsOk, QueueServed, NoOrphans;
    StepKeepsSorted(s, a);
    StepKeepsAgreement(s, a);
    StepPlacesRight(s, a);
  }

  lemma StepPlacesRight(s: System, a: Action)
    requires Stands(s) && NoOrphans(s) && Enabled(s, a) && KicksFromPhase(s, a)
    requires a.Manage? && s.manager.Waiting? ==> NobodyLive(s)
    ensures var s' := Step(s, a); StateMatches(s') && RunsOk(s') && QueueServed(s')
  {
    hide StateMatches, QueueServed, Without, Only, Sorted, NoOrphans, CountersAgree, NobodyLive;
    match a
    case Manage(ready) => ManageOk(s, ready); hide ManageStep, RunsOk;
    case Begin(i) => assert RunOk(s, s.runs[i]); AdvanceOk(s, i, Running);
    case Kick(i, x) => KickOk(s, i, x); hide RunsOk;
    case KickOn(i, ready) => KickOnOk(s, i, ready); hide KickOnStep, RunsOk;
    case Return(i, c) => assert RunOk(s, s.runs[i]); AdvanceOk(s, i, Returned(c));
    case Settle(i) => SettleOk(s, i); hide RunsOk, SettleStep;
    case Finish(i) => FinishOk(s, i); hide RunsOk;
    case KickOutside(x) => KickOutsideOk(s, x); hide RunsOk;
    case DetachMark(id) => ShrinkOk(s, Step(s, a)); hide RunsOk;
    case DetachSweepNext(id) => ShrinkOk(s, Step(s, a)); hide RunsOk;
    case DetachSweep(p, id) => SweepOk(s, p, id); hide RunsOk;
  }

  lemma KickOk(s: System, i: nat, x: Job)
    requires Stands(s) && Enabled(s, Kick(i, x)) && KicksFromPhase(s, Kick(i, x))
    ensures var s' := Step(s, Kick(i, x)); StateMatches(s') && RunsOk(s') && QueueServed(s')
  {
    assert RunOk(s, s.runs[i]);
    AdvanceOk(s, i, KickErased(x));
    ShrinkOk(Advance(s, i, KickErased(x)), Step(s, Kick(i, x)));
  }

  lemma SettleOk(s: System, i: nat)
    requires Stands(s) && Enabled(s, Settle(i))
    ensures var s' := SettleStep(s, i); StateMatches(s') && RunsOk(s') && QueueServed(s')
  {
    var pc := SettleStep(s, i).runs[i].pc;
    assert RunOk(s, s.runs[i]);
    AdvanceOk(s, i, pc);
    ShrinkOk(Advance(s, i, pc), SettleStep(s, i));
  }

  lemma SweepOk(s: System, p: Phase, id: string)
    requires Stands(s)
    ensures var s' := Step(s, DetachSweep(p, id)); StateMatches(s') && RunsOk(s') && QueueServed(s')
  {
    assert Without([], id) == [];
    ShrinkOk(s, Step(s, DetachSweep(p, id)));
  }

  lemma StepKeepsBarrier(s: System, a: Action)
    requires Barrier(s) && Enabled(s, a) && KicksFromPhase(s, a) && FinishesAlone(s, a)
    ensures Barrier(Step(s, a))
  {
    if a.Manage? && s.manager.Waiting? { CountZeroNoneLive(s, s.manager.phase); }
    assert Sorted(s);
    hide Step, Sorted, Stands, FinishesAlone;
    StepExactIff(s, a);
    StepStands(s, a);
  }

  // ---- Whole runs ----

  ghost predicate PhaseKicks(s: System, acts: seq<Action>)
    requires Valid(s, acts)
    decreases |acts|
  {
    acts == [] || (KicksFromPhase(s, acts[0]) && PhaseKicks(Step(s, acts[0]), acts[1..]))
  }

  ghost predicate Orderly(s: System, acts: seq<Action>)
    requires Valid(s, acts)
    decreases |acts|
  {
    acts == [] || (KicksFromPhase(s, acts[0]) && FinishesAlone(s, acts[0]) && Orderly(Step(s, acts[0]), acts[1..]))
  }

  lemma {:induction false} BarrierHolds(s: System, acts: seq<Action>)
    requires Barrier(s) && Valid(s, acts) && Orderly(s, acts)
    ensures Barrier(Last(s, acts))
    decreases |acts|
  {
    if acts == [] {
    } else {
      StepKeepsBarrier(s, acts[0]);
      BarrierHolds(Step(s, acts[0]), acts[1..]);
    }
  }

  lemma StartBarrier()
    ensures Barrier(START)
  {
  }

  /** The phase barrier over every run: when the manager leaves phase p, and likewise between cycles,
      the queue of p is empty, its counter is zero and no synchronous job is scheduled or running. */
  lemma PhaseIsLeftClean(acts: seq<Action>, p: Phase)
    requires Valid(START, acts) && Orderly(START, acts)
    ensures var s := Last(START, acts);
      && (s.manager == Leaving(p) ==> s.queues.At(p) == [] && s.counts.At(p) == 0)
      && (s.manager == Leaving(p) || s.manager == Idle ==>
            forall i :: 0 <= i < |s.runs| ==> !Live(s.runs[i]))
  {
    StartBarrier();
    BarrierHolds(START, acts);
    var s := Last(START, acts);
    if s.manager == Leaving(p) || s.manager == Idle {
      NoneLive(s);
    }
  }
}
