/** No job is lost or duplicated: every kick is queued, in some actor's hands, in flight, or accounted
    for as disposed, intercepted or detached. Holds for every interleaving, whoever kicks. */
module JobConservation {
  import opened JobModel
  import opened Scheduler

  /** What is counted at a run, for one job. */
  datatype Weight =
    | Owned(job: Job)                                // copies of the job the run is answerable for
    | Attached(job: Job, phase: Phase, cycle: nat)   // runs whose phase counter has not been lowered
    | Unfinished(job: Job)                           // synchronous runs not finished, and carried copies

  function One(b: bool): nat { if b then 1 else 0 }

  /** The job an actor carries between two queues while scheduling. */
  function Carried(l: Loop, j: Job): nat {
    match l
    case Popped(x) => One(x == j)
    case Deferring(x) => One(x == j)
    case Counted(x, _) => One(x == j)
    case _ => 0
  }

  /** A carried job whose phase counter is already raised. */
  function CarriedCounted(l: Loop, j: Job, cycle: nat): nat {
    match l
    case Counted(x, c) => One(x == j && !j.async && c == cycle)
    case _ => 0
  }

  function CarriedByRun(pc: RunPc, j: Job): nat {
    match pc
    case KickErased(x) => One(x == j)
    case InLoop(_, l) => Carried(l, j)
    case _ => 0
  }

  function CarriedByManager(m: ManagerPc, j: Job): nat {
    match m
    case DrainPopped(x) => One(x == j)
    case DrainErased(x) => One(x == j)
    case Looping(_, l) => Carried(l, j)
    case _ => 0
  }

  /** The weight of one run. A run owns its job until the job is disposed, intercepted or requeued;
      it is attached until FinishJob. */
  function At(w: Weight, r: Run): nat {
    match w
    case Owned(j) => One(r.job == j && !r.pc.Finishing? && !r.pc.Done?) + CarriedByRun(r.pc, j)
    case Attached(j, p, c) =>
      One(r.job == j && !j.async && j.phase == p && r.cycle == c && !r.pc.Done?)
      + (if r.pc.InLoop? && r.pc.queue == p then CarriedCounted(r.pc.loop, j, c) else 0)
    case Unfinished(j) => One(r.job == j && !j.async && !r.pc.Done?) + CarriedByRun(r.pc, j)
  }

  function Total(w: Weight, runs: seq<Run>): nat {
    if runs == [] then 0 else Total(w, runs[..|runs| - 1]) + At(w, runs[|runs| - 1])
  }

  lemma TotalAppend(w: Weight, runs: seq<Run>, r: Run)
    ensures Total(w, runs + [r]) == Total(w, runs) + At(w, r)
  {
    assert (runs + [r])[..|runs|] == runs;
  }

  /** Changing one run swaps its weight in the total. */
  lemma {:induction false} TotalUpdate(w: Weight, runs: seq<Run>, i: nat, r: Run)
    requires i < |runs|
    ensures Total(w, runs[i := r]) + At(w, runs[i]) == Total(w, runs) + At(w, r)
  {
    var n := |runs| - 1;
    if i == n {
      assert runs[i := r][..n] == runs[..n];
    } else {
      assert runs[i := r][..n] == runs[..n][i := r];
      TotalUpdate(w, runs[..n], i, r);
    }
  }

  /** The total covers each single run. */
  lemma {:induction false} TotalCovers(w: Weight, runs: seq<Run>, i: nat)
    requires i < |runs|
    ensures At(w, runs[i]) <= Total(w, runs)
  {
    if i < |runs| - 1 {
      TotalCovers(w, runs[..|runs| - 1], i);
    }
  }

  /** A total without weight at any run is zero. */
  lemma {:induction false} TotalZero(w: Weight, runs: seq<Run>)
    requires forall i :: 0 <= i < |runs| ==> At(w, runs[i]) == 0
    ensures Total(w, runs) == 0
  {
    if runs == [] {
    } else {
      TotalZero(w, runs[..|runs| - 1]);
    }
  }

  function Times(q: seq<Job>, j: Job): nat {
    multiset(q)[j]
  }

  function Queued(qs: PerPhase<seq<Job>>, j: Job): nat {
    Times(qs.init, j) + Times(qs.main, j) + Times(qs.cleanUp, j)
  }

  lemma QueuedPut(qs: PerPhase<seq<Job>>, p: Phase, q: seq<Job>, j: Job)
    ensures Queued(qs.Put(p, q), j) + Times(qs.At(p), j) == Queued(qs, j) + Times(q, j)
  {
  }

  /** In how many places a job can be found: the four queues, actors' hands, runs in flight. */
  function Places(s: System, j: Job): nat {
    Queued(s.queues, j) + Times(s.next, j) + CarriedByManager(s.manager, j) + Total(Owned(j), s.runs)
  }

  /** For every job: times kicked == places it is in + times disposed, failed or intercepted + times
      swept out by DetachJob. */
  ghost predicate Conserved(s: System) {
    forall j: Job :: s.kicked[j] == Places(s, j) + s.gone[j] + s.swept[j]
  }

  lemma PopTimes(q: seq<Job>, j: Job)
    requires q != []
    ensures Times(q, j) == One(q[0] == j) + Times(q[1..], j)
  {
    assert q == [q[0]] + q[1..];
  }

  lemma SweepTimes(q: seq<Job>, id: string, j: Job)
    ensures Times(q, j) == Times(Without(q, id), j) + Times(Only(q, id), j)
  {
    WithoutSplits(q, id);
  }

  lemma LoopTopConserves(s: System, p: Phase, ready: bool, j: Job)
    ensures var (s', l') := LoopStep(s, p, Top, ready);
      Queued(s'.queues, j) + Carried(l', j) == Queued(s.queues, j)
  {
    var q := s.queues.At(p);
    if q != [] {
      PopTimes(q, j);
      QueuedPut(s.queues, p, q[1..], j);
    }
  }

  lemma LoopSpawnConserves(s: System, p: Phase, x: Job, c: nat, ready: bool, j: Job)
    ensures Total(Owned(j), LoopStep(s, p, Counted(x, c), ready).0.runs) == Total(Owned(j), s.runs) + One(x == j)
  {
    var r := Run(x, c, Awaiting);
    TotalAppend(Owned(j), s.runs, r);
    assert At(Owned(j), r) == One(x == j);
    assert LoopStep(s, p, Counted(x, c), ready).0.runs == s.runs + [r];
    hide Total, At, LoopStep;
  }

  lemma LoopDefersConserves(s: System, p: Phase, x: Job, ready: bool, j: Job)
    ensures Times(LoopStep(s, p, Deferring(x), ready).0.next, j) == Times(s.next, j) + One(x == j)
  {
  }

  /** The copies of j that a scheduling section for this loop can move, and those it has disposed of. */
  function LoopHoldings(s: System, l: Loop, j: Job): nat {
    Queued(s.queues, j) + Times(s.next, j) + Total(Owned(j), s.runs) + Carried(l, j) + s.gone[j]
  }

  lemma LoopDecisionConserves(s: System, p: Phase, x: Job, ready: bool, j: Job)
    ensures var (s', l') := LoopStep(s, p, Popped(x), ready); LoopHoldings(s', l', j) == LoopHoldings(s, Popped(x), j)
  {
    hide Queued, Times, Total;
  }

  lemma LoopStartConserves(s: System, p: Phase, ready: bool, j: Job)
    ensures var (s', l') := LoopStep(s, p, Top, ready); LoopHoldings(s', l', j) == LoopHoldings(s, Top, j)
  {
    LoopTopConserves(s, p, ready, j);
    hide Queued, Times, Total;
  }

  lemma LoopDeferConserves(s: System, p: Phase, x: Job, ready: bool, j: Job)
    ensures var (s', l') := LoopStep(s, p, Deferring(x), ready);
      LoopHoldings(s', l', j) == LoopHoldings(s, Deferring(x), j)
  {
    var (s', l') := LoopStep(s, p, Deferring(x), ready);
    LoopDefersConserves(s, p, x, ready, j);
    assert s'.queues == s.queues && s'.runs == s.runs && s'.gone == s.gone && l' == Top;
    hide LoopStep, Queued, Times, Total, At, One;
  }

  lemma CountedSpawns(s: System, p: Phase, x: Job, c: nat, ready: bool)
    ensures LoopStep(s, p, Counted(x, c), ready) == (s.(runs := s.runs + [Run(x, c, Awaiting)]), Top)
  {
  }

  lemma LoopEndConserves(s: System, p: Phase, x: Job, c: nat, ready: bool, j: Job)
    ensures var (s', l') := LoopStep(s, p, Counted(x, c), ready);
      LoopHoldings(s', l', j) == LoopHoldings(s, Counted(x, c), j)
  {
    CountedSpawns(s, p, x, c, ready);
    hide LoopStep, Queued, Times, Total, At, One;
    LoopSpawnConserves(s, p, x, c, ready, j);
  }

  /** Scheduling sections move a job along; none appears or disappears. */
  lemma LoopConserves(s: System, p: Phase, l: Loop, ready: bool, j: Job)
    requires !l.Exited?
    ensures var (s', l') := LoopStep(s, p, l, ready); LoopHoldings(s', l', j) == LoopHoldings(s, l, j)
  {
    hide LoopHoldings, LoopStep;
    match l
    case Top => LoopStartConserves(s, p, ready, j);
    case Popped(x) => LoopDecisionConserves(s, p, x, ready, j);
    case Deferring(x) => LoopDeferConserves(s, p, x, ready, j);
    case Counted(x, c) => LoopEndConserves(s, p, x, c, ready, j);
  }

  lemma Moves(w: Weight, s: System, i: nat, pc: RunPc)
    requires i < |s.runs|
    ensures Total(w, Advance(s, i, pc).runs) + At(w, s.runs[i])
         == Total(w, s.runs) + At(w, s.runs[i].(pc := pc))
  {
    TotalUpdate(w, s.runs, i, s.runs[i].(pc := pc));
  }

  lemma ManageLoopConserves(s: System, ready: bool, j: Job)
    requires s.manager.Looping? && ManageEnabled(s)
    ensures var s' := ManageStep(s, ready); Places(s', j) + s'.gone[j] == Places(s, j) + s.gone[j]
  {
    LoopConserves(s, s.manager.phase, s.manager.loop, ready, j);
    hide Total, At, LoopStep, Queued, Times;
  }

  lemma DrainConserves(s: System, ready: bool, j: Job)
    requires s.manager.Draining? || s.manager.DrainPopped? || s.manager.DrainErased?
    ensures Places(ManageStep(s, ready), j) == Places(s, j)
  {
    hide Total, At, Queued;
    if s.manager.DrainErased? {
      QueuedPut(s.queues, s.manager.job.phase, s.queues.At(s.manager.job.phase) + [s.manager.job], j);
    } else if s.manager.Draining? && s.next != [] {
      PopTimes(s.next, j);
    }
  }

  lemma ManageConserves(s: System, ready: bool, j: Job)
    requires ManageEnabled(s)
    ensures var s' := ManageStep(s, ready); Places(s', j) + s'.gone[j] == Places(s, j) + s.gone[j]
  {
    if s.manager.Draining? || s.manager.DrainPopped? || s.manager.DrainErased? {
      DrainConserves(s, ready, j);
      hide Places;
    } else if s.manager.Looping? {
      ManageLoopConserves(s, ready, j);
    } else {
      hide Total, At, LoopStep, Queued, Times, Carried;
    }
  }

  lemma KickPushConserves(s: System, i: nat, x: Job, j: Job)
    requires i < |s.runs| && s.runs[i].pc == KickErased(x)
    ensures Places(KickOnStep(s, i, true), j) == Places(s, j)
  {
    Moves(Owned(j), Push(s, x), i, KickPushed(x.phase));
    QueuedPut(s.queues, x.phase, s.queues.At(x.phase) + [x], j);
    hide Total, Queued;
  }

  lemma KickCheckConserves(s: System, i: nat, j: Job)
    requires i < |s.runs| && s.runs[i].pc.KickPushed?
    ensures Places(KickOnStep(s, i, true), j) == Places(s, j)
  {
    var p := s.runs[i].pc.queue;
    Moves(Owned(j), s, i, if s.state == CycleOf(p) then InLoop(p, Top) else Running);
    hide Total, Queued, Times;
  }

  lemma AdvancePlaces(s: System, i: nat, pc: RunPc, j: Job)
    requires i < |s.runs|
    ensures Places(Advance(s, i, pc), j) + At(Owned(j), s.runs[i])
         == Places(s, j) + At(Owned(j), s.runs[i].(pc := pc))
  {
    Moves(Owned(j), s, i, pc);
    hide Total, Queued, Times, At, CarriedByManager;
  }

  lemma LoopPlaces(s: System, p: Phase, l: Loop, ready: bool, j: Job)
    requires !l.Exited?
    ensures var (s', l') := LoopStep(s, p, l, ready);
      Places(s', j) + Carried(l', j) + s'.gone[j] == Places(s, j) + Carried(l, j) + s.gone[j]
  {
    LoopConserves(s, p, l, ready, j);
    var s' := LoopStep(s, p, l, ready).0;
    assert s'.manager == s.manager;
    hide LoopStep, Total, Queued, Times, Carried, CarriedByManager;
  }

  lemma KickLoopConserves(s: System, i: nat, ready: bool, j: Job)
    requires i < |s.runs| && s.runs[i].pc.InLoop? && !s.runs[i].pc.loop.Exited?
    ensures var s' := KickOnStep(s, i, ready); Places(s', j) + s'.gone[j] == Places(s, j) + s.gone[j]
  {
    var p, l := s.runs[i].pc.queue, s.runs[i].pc.loop;
    var (s', l') := LoopStep(s, p, l, ready);
    LoopPlaces(s, p, l, ready, j);
    var pc' := if l'.Exited? then Running else InLoop(p, l');
    AdvancePlaces(s', i, pc', j);
    assert s'.runs[i] == s.runs[i];
    assert At(Owned(j), s.runs[i]) == One(s.runs[i].job == j) + Carried(l, j);
    assert At(Owned(j), s.runs[i].(pc := pc')) == One(s.runs[i].job == j) + Carried(l', j);
    hide Places, LoopStep, At, Carried;
  }

  lemma PlacesFrame(s: System, s': System, j: Job)
    requires s'.queues == s.queues && s'.next == s.next && s'.manager == s.manager && s'.runs == s.runs
    ensures Places(s', j) == Places(s, j)
  {
    hide Total, Queued, Times, CarriedByManager;
  }

  lemma SettleConserves(s: System, i: nat, j: Job)
    requires i < |s.runs| && s.runs[i].pc.Returned?
    ensures var s' := SettleStep(s, i);
      s'.kicked == s.kicked && s'.swept == s.swept && Places(s', j) + s'.gone[j] == Places(s, j) + s.gone[j]
  {
    var s' := SettleStep(s, i);
    var pc' := s'.runs[i].pc;
    AdvancePlaces(s, i, pc', j);
    PlacesFrame(Advance(s, i, pc'), s', j);
    assert At(Owned(j), s.runs[i]) == One(s.runs[i].job == j);
    assert At(Owned(j), s.runs[i].(pc := pc')) == if pc'.Requeueing? then One(s.runs[i].job == j) else 0;
    hide Places, At;
  }

  lemma RequeueConserves(s: System, i: nat, j: Job)
    requires i < |s.runs| && s.runs[i].pc.Requeueing?
    ensures var s' := SettleStep(s, i);
      s'.kicked == s.kicked && s'.swept == s.swept && s'.gone == s.gone && Places(s', j) == Places(s, j)
  {
    Moves(Owned(j), s, i, Finishing(Requeued));
    hide Total, Queued;
  }

  lemma KickConserves(s: System, i: nat, x: Job, j: Job)
    requires i < |s.runs| && s.runs[i].pc.Running?
    ensures Places(Step(s, Kick(i, x)), j) == Places(s, j) + One(x == j)
  {
    Moves(Owned(j), s, i, KickErased(x));
    hide Total, Queued, Times;
  }

  /** Starting, returning and finishing leave the owned job where it is. */
  lemma AdvanceConserves(s: System, i: nat, pc: RunPc, j: Job)
    requires i < |s.runs|
    requires At(Owned(j), s.runs[i]) == At(Owned(j), s.runs[i].(pc := pc))
    ensures Places(Advance(s, i, pc), j) == Places(s, j)
  {
    Moves(Owned(j), s, i, pc);
    hide Total, Queued, Times, At;
  }

  lemma SweepConserves(s: System, p: Phase, id: string, j: Job)
    ensures var s' := Step(s, DetachSweep(p, id)); Places(s', j) + s'.swept[j] == Places(s, j) + s.swept[j]
  {
    SweepTimes(s.queues.At(p), id, j);
    QueuedPut(s.queues, p, Without(s.queues.At(p), id), j);
    hide Total, At, Queued, Without, Only;
  }

  lemma SweepNextConserves(s: System, id: string, j: Job)
    ensures var s' := Step(s, DetachSweepNext(id)); Places(s', j) + s'.swept[j] == Places(s, j) + s.swept[j]
  {
    SweepTimes(s.next, id, j);
    hide Total, At, Queued, Without, Only;
  }

  lemma KickOutsideConserves(s: System, x: Job, j: Job)
    requires Enabled(s, KickOutside(x))
    ensures Places(Step(s, KickOutside(x)), j) == Places(s, j) + One(x == j)
  {
    QueuedPut(s.queues, x.phase, s.queues.At(x.phase) + [x], j);
    hide Total, At, Queued;
  }

  /** What a step books as kicked is exactly what it adds to the places and the accounts. */
  lemma StepConserves(s: System, a: Action, j: Job)
    requires Enabled(s, a)
    ensures var s' := Step(s, a);
      s'.kicked[j] + Places(s, j) + s.gone[j] + s.swept[j]
      == s.kicked[j] + Places(s', j) + s'.gone[j] + s'.swept[j]
  {
    hide Places;
    match a
    case Manage(ready) => ManageConserves(s, ready, j); hide ManageStep;
    case KickOn(i, ready) => KickOnConserves(s, i, ready, j); hide KickOnStep;
    case Settle(i) =>
      if s.runs[i].pc.Returned? { SettleConserves(s, i, j); } else { RequeueConserves(s, i, j); }
      hide SettleStep;
    case Begin(i) => AdvanceConserves(s, i, Running, j);
    case Kick(i, x) => KickConserves(s, i, x, j);
    case Return(i, c) => AdvanceConserves(s, i, Returned(c), j);
    case Finish(i) => FinishConserves(s, i, j);
    case KickOutside(x) => KickOutsideConserves(s, x, j);
    case DetachMark(id) => MarkConserves(s, id, j);
    case DetachSweepNext(id) => SweepNextConserves(s, id, j);
    case DetachSweep(p, id) => SweepConserves(s, p, id, j);
  }

  lemma FinishConserves(s: System, i: nat, j: Job)
    requires i < |s.runs| && s.runs[i].pc.Finishing?
    ensures Places(Step(s, Finish(i)), j) == Places(s, j)
  {
    AdvanceConserves(s, i, Done(s.runs[i].pc.outcome), j);
    hide Total, Times, Queued, At;
  }

  lemma MarkConserves(s: System, id: string, j: Job)
    ensures Places(Step(s, DetachMark(id)), j) == Places(s, j)
  {
    hide Total, Times, Queued, At;
  }

  lemma KickOnConserves(s: System, i: nat, ready: bool, j: Job)
    requires Enabled(s, KickOn(i, ready))
    ensures var s' := KickOnStep(s, i, ready);
      s'.kicked == s.kicked && s'.swept == s.swept && Places(s', j) + s'.gone[j] == Places(s, j) + s.gone[j]
  {
    match s.runs[i].pc
    case KickErased(x) => KickPushConserves(s, i, x, j); hide Places;
    case KickPushed(p) => KickCheckConserves(s, i, j); hide Places;
    case InLoop(p, l) => KickLoopConserves(s, i, ready, j); hide Places;
  }

  /** Conservation over whole runs of the system. */
  lemma {:induction false} JobsAreConserved(s: System, acts: seq<Action>)
    requires Conserved(s) && Valid(s, acts)
    ensures Conserved(Last(s, acts))
    decreases |acts|
  {
    if acts == [] {
    } else {
      forall j: Job ensures Step(s, acts[0]).kicked[j]
          == Places(Step(s, acts[0]), j) + Step(s, acts[0]).gone[j] + Step(s, acts[0]).swept[j] {
        StepConserves(s, acts[0], j);
      }
      JobsAreConserved(Step(s, acts[0]), acts[1..]);
    }
  }
}
