/** What a caller of KickJob has to observe for the phase barrier: a synchronous job object is kicked
    only while the job system does not hold it. */
module FreshKicks {
  import opened JobModel
  import opened Scheduler
  import opened JobConservation
  import opened PhaseCounters
  import opened PhaseBarrier

  /** Copies of j that are queued for this cycle, carried, or scheduled and not finished. */
  function Work(s: System, j: Job): nat {
    Queued(s.queues, j) + CarriedByManager(s.manager, j) + Total(Unfinished(j), s.runs)
  }

  /** The job system holds no copy of j: not queued, not reserved for the next cycle, not running. */
  predicate Unheld(s: System, j: Job) {
    Work(s, j) == 0 && Places(s, j) == 0
  }

  predicate FreshKick(s: System, a: Action) {
    match a
    case Kick(_, j) => j.async || Unheld(s, j)
    case KickOutside(j) => j.async || Unheld(s, j)
    case _ => true
  }

  ghost predicate Single(s: System) {
    forall j: Job :: !j.async ==> Work(s, j) <= 1 && Places(s, j) <= 1
  }

  function Kicks(a: Action, j: Job): nat {
    match a
    case Kick(_, x) => One(x == j)
    case KickOutside(x) => One(x == j)
    case _ => 0
  }

  /** The copy the drain takes out of the next-cycle queue. */
  function Drained(s: System, a: Action, j: Job): nat {
    if a.Manage? && s.manager.Draining? && s.next != [] then One(s.next[0] == j) else 0
  }

  // ---- Work in hand grows only by kicks and by the drain ----

  lemma LoopWork(s: System, p: Phase, l: Loop, ready: bool, j: Job)
    requires !l.Exited? && !j.async
    ensures var (s', l') := LoopStep(s, p, l, ready);
      var before := Queued(s.queues, j) + Total(Unfinished(j), s.runs) + Carried(l, j);
      var after := Queued(s'.queues, j) + Total(Unfinished(j), s'.runs) + Carried(l', j);
      after <= before && ((ready && !l.Deferring?) || Carried(l, j) == 0 ==> after == before)
  {
    hide Total;
    match l
    case Top => LoopTopConserves(s, p, ready, j); hide At;
    case Popped(x) => hide Queued, Times, At;
    case Deferring(x) => hide Queued, Times, At;
    case Counted(x, c) => TotalAppend(Unfinished(j), s.runs, Run(x, c, Awaiting)); hide Queued, Times;
  }

  lemma ManageWork(s: System, ready: bool, j: Job)
    requires ManageEnabled(s) && !j.async
    ensures Work(ManageStep(s, ready), j) <= Work(s, j) + Drained(s, Manage(ready), j)
  {
    hide Total, At, Times, Queued;
    if s.manager.Looping? {
      LoopWork(s, s.manager.phase, s.manager.loop, ready, j);
      hide LoopStep;
    } else if s.manager.DrainErased? {
      var x := s.manager.job;
      QueuedPut(s.queues, x.phase, s.queues.At(x.phase) + [x], j);
      PushTimes(s.queues.At(x.phase), x, j);
      hide LoopStep;
    } else {
      hide LoopStep, Carried;
    }
  }

  lemma PushTimes(q: seq<Job>, x: Job, j: Job)
    ensures Times(q + [x], j) == Times(q, j) + One(x == j)
  {
  }

  lemma AdvanceWork(s: System, i: nat, pc: RunPc, j: Job)
    requires i < |s.runs|
    ensures Work(Advance(s, i, pc), j) + At(Unfinished(j), s.runs[i])
         == Work(s, j) + At(Unfinished(j), s.runs[i].(pc := pc))
  {
    Moves(Unfinished(j), s, i, pc);
    hide Total, Times, Queued, At;
  }

  lemma KickPushWork(s: System, i: nat, x: Job, j: Job)
    requires i < |s.runs| && s.runs[i].pc == KickErased(x)
    ensures Work(KickOnStep(s, i, true), j) == Work(s, j)
  {
    AdvanceWork(Push(s, x), i, KickPushed(x.phase), j);
    QueuedPut(s.queues, x.phase, s.queues.At(x.phase) + [x], j);
    PushTimes(s.queues.At(x.phase), x, j);
    hide Total, Queued, Times;
  }

  lemma LoopWorkAll(s: System, p: Phase, l: Loop, ready: bool, j: Job)
    requires !l.Exited? && !j.async
    ensures var (s', l') := LoopStep(s, p, l, ready);
      var before, after := Work(s, j) + Carried(l, j), Work(s', j) + Carried(l', j);
      after <= before && ((ready && !l.Deferring?) || Carried(l, j) == 0 ==> after == before)
  {
    LoopWork(s, p, l, ready, j);
    LoopKeepsPcs(s, p, l, ready);
    hide LoopStep, Total, Queued, Carried, CarriedByManager;
  }

  lemma KickLoopWork(s: System, i: nat, ready: bool, j: Job)
    requires i < |s.runs| && s.runs[i].pc.InLoop? && !s.runs[i].pc.loop.Exited? && !j.async
    ensures Work(KickOnStep(s, i, ready), j) <= Work(s, j)
    ensures (ready && !s.runs[i].pc.loop.Deferring?) || Carried(s.runs[i].pc.loop, j) == 0 ==>
              Work(KickOnStep(s, i, ready), j) == Work(s, j)
  {
    var p, l := s.runs[i].pc.queue, s.runs[i].pc.loop;
    var (s', l') := LoopStep(s, p, l, ready);
    LoopWorkAll(s, p, l, ready, j);
    var pc' := if l'.Exited? then Running else InLoop(p, l');
    AdvanceWork(s', i, pc', j);
    LoopKeepsPcs(s, p, l, ready);
    assert At(Unfinished(j), s.runs[i]) == One(s.runs[i].job == j) + Carried(l, j);
    assert At(Unfinished(j), s.runs[i].(pc := pc')) == One(s.runs[i].job == j) + Carried(l', j);
    hide Work, LoopStep, At, Carried;
  }

  lemma KickOnWork(s: System, i: nat, ready: bool, j: Job)
    requires Enabled(s, KickOn(i, ready)) && !j.async
    ensures Work(KickOnStep(s, i, ready), j) <= Work(s, j)
  {
    match s.runs[i].pc
    case KickErased(x) => KickPushWork(s, i, x, j); hide Work;
    case KickPushed(p) =>
      AdvanceWork(s, i, if s.state == CycleOf(p) then InLoop(p, Top) else Running, j); hide Work;
    case InLoop(p, l) => KickLoopWork(s, i, ready, j); hide Work;
  }

  /** Whether a run that carries nothing and has not ended counts does not depend on where it stands. */
  lemma UnfinishedAt(r: Run, pc: RunPc, j: Job)
    requires !r.pc.Done? && !r.pc.KickErased? && !r.pc.InLoop? && !pc.Done? && !pc.KickErased? && !pc.InLoop?
    ensures At(Unfinished(j), r.(pc := pc)) == At(Unfinished(j), r)
  {
  }

  lemma SettleWork(s: System, i: nat, j: Job)
    requires Enabled(s, Settle(i)) && !j.async
    ensures Work(SettleStep(s, i), j) == Work(s, j)
  {
    hide Work, At;
    var s' := SettleStep(s, i);
    AdvanceWork(s, i, s'.runs[i].pc, j);
    UnfinishedAt(s.runs[i], s'.runs[i].pc, j);
    WorkFrame(Advance(s, i, s'.runs[i].pc), s', j);
  }

  lemma SweepWork(s: System, p: Phase, id: string, j: Job)
    ensures Work(Step(s, DetachSweep(p, id)), j) <= Work(s, j)
  {
    SweepTimes(s.queues.At(p), id, j);
    QueuedPut(s.queues, p, Without(s.queues.At(p), id), j);
    hide Total, At, Queued, Without, Only, Times;
  }

  lemma KickOutsideWork(s: System, x: Job, j: Job)
    requires Enabled(s, KickOutside(x))
    ensures Work(Step(s, KickOutside(x)), j) == Work(s, j) + One(x == j)
  {
    QueuedPut(s.queues, x.phase, s.queues.At(x.phase) + [x], j);
    PushTimes(s.queues.At(x.phase), x, j);
    hide Total, At, Queued, Times;
  }

  /** Advance, with blacklist, history or counters touched besides. */
  lemma WorkFrame(s: System, s': System, j: Job)
    requires s'.queues == s.queues && s'.manager == s.manager && s'.runs == s.runs
    ensures Work(s', j) == Work(s, j)
  {
    hide Total, At, Queued, Times;
  }

  lemma StepWork(s: System, a: Action, j: Job)
    requires Enabled(s, a) && !j.async
    ensures Work(Step(s, a), j) <= Work(s, j) + Kicks(a, j) + Drained(s, a, j)
  {
    hide Work, Without, Only;
    match a
    case Manage(ready) => ManageWork(s, ready, j); hide ManageStep;
    case Begin(i) => AdvanceWork(s, i, Running, j);
    case Kick(i, x) =>
      AdvanceWork(s, i, KickErased(x), j);
      WorkFrame(Advance(s, i, KickErased(x)), Step(s, a), j);
    case KickOn(i, ready) => KickOnWork(s, i, ready, j); hide KickOnStep;
    case Return(i, c) => AdvanceWork(s, i, Returned(c), j);
    case Settle(i) => SettleWork(s, i, j); hide SettleStep;
    case Finish(i) =>
      AdvanceWork(s, i, Done(s.runs[i].pc.outcome), j);
      WorkFrame(Advance(s, i, Done(s.runs[i].pc.outcome)), Step(s, a), j);
    case KickOutside(x) => KickOutsideWork(s, x, j);
    case DetachMark(id) => WorkFrame(s, Step(s, a), j);
    case DetachSweepNext(id) => WorkFrame(s, Step(s, a), j);
    case DetachSweep(p, id) => SweepWork(s, p, id, j);
  }

  lemma LoopBooks(s: System, p: Phase, l: Loop, ready: bool)
    requires !l.Exited?
    ensures var s' := LoopStep(s, p, l, ready).0;
      s'.kicked == s.kicked && s'.swept == s.swept && s.gone <= s'.gone
  {
  }

  /** The accounts only grow, and `kicked` grows by the kicks. */
  lemma StepBooks(s: System, a: Action, j: Job)
    requires Enabled(s, a)
    ensures var s' := Step(s, a);
      s'.kicked[j] == s.kicked[j] + Kicks(a, j) && s.gone[j] <= s'.gone[j] && s.swept[j] <= s'.swept[j]
  {
    hide Without, Only;
    if a.Manage? && s.manager.Looping? {
      LoopBooks(s, s.manager.phase, s.manager.loop, a.ready);
      hide LoopStep;
    } else if a.KickOn? && s.runs[a.run].pc.InLoop? {
      LoopBooks(s, s.runs[a.run].pc.queue, s.runs[a.run].pc.loop, a.ready);
      hide LoopStep;
    } else {
      hide LoopStep;
    }
  }

  lemma StepPlaces(s: System, a: Action, j: Job)
    requires Enabled(s, a)
    ensures Places(Step(s, a), j) <= Places(s, j) + Kicks(a, j)
  {
    hide Step, Places;
    StepConserves(s, a, j);
    StepBooks(s, a, j);
  }

  /** When the drain hands out a synchronous job, the system holds no other copy of it. */
  lemma DrainIsFresh(s: System, j: Job)
    requires Barrier(s) && Single(s) && s.manager.Draining? && j in s.next && !j.async
    ensures Work(s, j) == 0
  {
    NoneLive(s);
    forall i | 0 <= i < |s.runs| ensures At(Unfinished(j), s.runs[i]) == 0 {
      assert RunOk(s, s.runs[i]) && !Live(s.runs[i]);
    }
    TotalZero(Unfinished(j), s.runs);
    assert Times(s.next, j) >= 1 && Places(s, j) <= 1;
    hide Total, At;
  }

  lemma StepKeepsSingle(s: System, a: Action)
    requires Barrier(s) && Single(s) && Enabled(s, a) && FreshKick(s, a)
    ensures Single(Step(s, a))
  {
    hide Work, Places, Step, Barrier;
    forall j: Job | !j.async ensures Work(Step(s, a), j) <= 1 && Places(Step(s, a), j) <= 1 {
      StepWork(s, a, j);
      StepPlaces(s, a, j);
      if Drained(s, a, j) > 0 {
        DrainIsFresh(s, j);
      }
    }
  }

  // ---- A fresh job finishes alone ----

  lemma {:induction false} AttachedWithinUnfinished(runs: seq<Run>, j: Job, p: Phase, cycle: nat)
    requires !j.async
    ensures Total(Attached(j, p, cycle), runs) <= Total(Unfinished(j), runs)
  {
    if runs == [] {
    } else {
      AttachedWithinUnfinished(runs[..|runs| - 1], j, p, cycle);
    }
  }

  /** Nothing is attached to the counter of a phase the job does not belong to, or to an asynchronous job. */
  lemma NothingElsewhere(s: System, p: Phase, j: Job)
    requires Sorted(s) && (j.async || j.phase != p)
    ensures Outstanding(s, p, j) == 0
  {
    forall i | 0 <= i < |s.runs| ensures At(Attached(j, p, s.cycle), s.runs[i]) == 0 {
      assert RunSorted(s.runs[i], s.cycle);
    }
    TotalZero(Attached(j, p, s.cycle), s.runs);
    hide Total, At;
  }

  lemma SingleFinishesAlone(s: System, i: nat)
    requires Barrier(s) && Single(s) && i < |s.runs| && s.runs[i].pc.Finishing?
    ensures NoSibling(s, i)
  {
    var j := s.runs[i].job;
    forall p: Phase ensures Outstanding(s, p, j) == At(Attached(j, p, s.cycle), s.runs[i]) {
      TotalCovers(Attached(j, p, s.cycle), s.runs, i);
      if j.async || j.phase != p {
        NothingElsewhere(s, p, j);
      } else {
        AttachedWithinUnfinished(s.runs, j, p, s.cycle);
        assert RunOk(s, s.runs[i]);
        assert Work(s, j) <= 1;
      }
    }
  }

  /** Jobs kick from the running phase, other threads kick jobs of other phases, and a synchronous job is kicked
      only while the system does not hold it. */
  ghost predicate FreshRun(s: System, acts: seq<Action>)
    requires Valid(s, acts)
    decreases |acts|
  {
    acts == [] || (KicksFromPhase(s, acts[0]) && FreshKick(s, acts[0]) && FreshRun(Step(s, acts[0]), acts[1..]))
  }

  /** Fresh kicks keep every job single, so no job ever finishes beside a sibling run. */
  lemma {:induction false} FreshRunsAreOrderly(s: System, acts: seq<Action>)
    requires Barrier(s) && Single(s) && Valid(s, acts) && FreshRun(s, acts)
    ensures Orderly(s, acts) && Barrier(Last(s, acts)) && Single(Last(s, acts))
    decreases |acts|
  {
    if acts == [] {
    } else {
      if acts[0].Finish? {
        SingleFinishesAlone(s, acts[0].run);
      }
      StepKeepsBarrier(s, acts[0]);
      StepKeepsSingle(s, acts[0]);
      FreshRunsAreOrderly(Step(s, acts[0]), acts[1..]);
    }
  }

  lemma StartSingle()
    ensures Barrier(START) && Single(START)
  {
  }
}
