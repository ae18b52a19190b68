/** Requeueing, detaching, and what goes wrong when a running job object is kicked again. */
module JobLifecycle {
  import opened JobModel
  import opened Scheduler
  import opened JobConservation
  import opened PhaseCounters
  import opened PhaseBarrier
  import opened FreshKicks

  // ---- Requeue completeness ----

  predicate InDrain(m: ManagerPc) {
    m.Draining? || m.DrainPopped? || m.DrainErased? || m.Beginning?
  }

  predicate EndedAs(pc: RunPc, o: Outcome) {
    pc == Finishing(o) || pc == Done(o)
  }

  /** A synchronous run of the current cycle that returned REQUEUE has its job waiting for the next
      cycle, unless the job was detached during this cycle. */
  predicate Promised(s: System, r: Run) {
    !r.job.async && r.cycle == s.cycle ==>
      && (EndedAs(r.pc, Requeued) ==> r.job in s.next || r.job.id in s.detached)
      && (EndedAs(r.pc, Intercepted) ==> r.job.id in s.detached)
  }

  predicate RequeuesKept(s: System) {
    && s.blacklist <= s.detached
    && (!InDrain(s.manager) ==> forall i :: 0 <= i < |s.runs| ==> Promised(s, s.runs[i]))
    && (s.manager.Beginning? ==> forall i :: 0 <= i < |s.runs| ==> s.runs[i].cycle < s.cycle)
  }

  lemma LoopKeepsRequeues(s: System, p: Phase, l: Loop, ready: bool)
    requires RequeuesKept(s) && !l.Exited? && !InDrain(s.manager)
    ensures RequeuesKept(LoopStep(s, p, l, ready).0)
  {
    var s' := LoopStep(s, p, l, ready).0;
    forall i | 0 <= i < |s'.runs| ensures Promised(s', s'.runs[i]) {
      if i < |s.runs| { assert Promised(s, s.runs[i]); }
    }
  }

  lemma ManageKeepsRequeues(s: System, ready: bool)
    requires Barrier(s) && RequeuesKept(s) && ManageEnabled(s)
    ensures RequeuesKept(ManageStep(s, ready))
  {
    var s' := ManageStep(s, ready);
    if s.manager.Looping? {
      var p, l := s.manager.phase, s.manager.loop;
      LoopKeepsRequeues(s, p, l, ready);
      LoopRuns(s, p, l, ready);
      hide LoopStep, Barrier;
      var s1 := LoopStep(s, p, l, ready).0;
      forall i | 0 <= i < |s'.runs| ensures Promised(s', s'.runs[i]) {
        assert Promised(s1, s1.runs[i]);
      }
    } else if s.manager.Draining? {
      assert forall i :: 0 <= i < |s.runs| ==> RunSorted(s.runs[i], s.cycle);
      hide LoopStep, Barrier, Promised;
    } else {
      hide LoopStep, Barrier;
      forall i | 0 <= i < |s'.runs| && !InDrain(s'.manager) ensures Promised(s', s'.runs[i]) {
        assert s.manager.Beginning? || Promised(s, s.runs[i]);
      }
    }
  }

  /** Moving a run on to a place that is not an end, or that keeps the promise. */
  lemma AdvanceKeepsRequeues(s: System, i: nat, pc: RunPc)
    requires RequeuesKept(s) && i < |s.runs|
    requires InDrain(s.manager) || Promised(s, s.runs[i].(pc := pc))
    ensures RequeuesKept(Advance(s, i, pc))
  {
    var s' := Advance(s, i, pc);
    forall k | 0 <= k < |s'.runs| && !InDrain(s'.manager) ensures Promised(s', s'.runs[k]) {
      assert Promised(s, s.runs[k]);
    }
  }

  /** Changes that forget no waiting job without recording its id as detached. */
  lemma FrameKeepsRequeues(s: System, s': System)
    requires RequeuesKept(s)
    requires s'.runs == s.runs && s'.cycle == s.cycle && s'.manager == s.manager
    requires s'.blacklist <= s'.detached && s.detached <= s'.detached
    requires forall j: Job :: j in s.next ==> j in s'.next || j.id in s'.detached
    ensures RequeuesKept(s')
  {
    forall k | 0 <= k < |s'.runs| && !InDrain(s'.manager) ensures Promised(s', s'.runs[k]) {
      assert Promised(s, s.runs[k]);
    }
  }

  lemma KickOnKeepsRequeues(s: System, i: nat, ready: bool)
    requires Barrier(s) && RequeuesKept(s) && Enabled(s, KickOn(i, ready))
    ensures RequeuesKept(KickOnStep(s, i, ready))
  {
    match s.runs[i].pc
    case KickErased(x) =>
      FrameKeepsRequeues(s, Push(s, x));
      AdvanceKeepsRequeues(Push(s, x), i, KickPushed(x.phase));
      hide RequeuesKept, Barrier;
    case KickPushed(p) =>
      AdvanceKeepsRequeues(s, i, if s.state == CycleOf(p) then InLoop(p, Top) else Running);
      hide RequeuesKept, Barrier;
    case InLoop(p, l) =>
      KickingIsLive(s, i);
      assert RunOk(s, s.runs[i]) && RunSorted(s.runs[i], s.cycle);
      LoopKeepsRequeues(s, p, l, ready);
      LoopRuns(s, p, l, ready);
      var (s', l') := LoopStep(s, p, l, ready);
      AdvanceKeepsRequeues(s', i, if l'.Exited? then Running else InLoop(p, l'));
      hide RequeuesKept, LoopStep, Barrier;
  }

  lemma SettleKeepsRequeues(s: System, i: nat)
    requires RequeuesKept(s) && Enabled(s, Settle(i))
    ensures RequeuesKept(SettleStep(s, i))
  {
    var pc, s' := SettleStep(s, i).runs[i].pc, SettleStep(s, i);
    var s1 := s.(next := s'.next, gone := s'.gone);
    FrameKeepsRequeues(s, s1);
    AdvanceKeepsRequeues(s1, i, pc);
    assert s' == Advance(s1, i, pc);
    hide RequeuesKept;
  }

  lemma FinishKeepsRequeues(s: System, i: nat)
    requires RequeuesKept(s) && Enabled(s, Finish(i))
    ensures RequeuesKept(Step(s, Finish(i)))
  {
    var s1 := Advance(s, i, Done(s.runs[i].pc.outcome));
    AdvanceKeepsRequeues(s, i, Done(s.runs[i].pc.outcome));
    FrameKeepsRequeues(s1, Step(s, Finish(i)));
    hide RequeuesKept;
  }

  lemma SweepNextKeepsRequeues(s: System, id: string)
    requires RequeuesKept(s)
    ensures RequeuesKept(Step(s, DetachSweepNext(id)))
  {
    WithoutSplits(s.next, id);
    FrameKeepsRequeues(s, Step(s, DetachSweepNext(id)));
    hide RequeuesKept, Without, Only;
  }

  lemma KickKeepsRequeues(s: System, i: nat, x: Job)
    requires RequeuesKept(s) && Enabled(s, Kick(i, x))
    ensures RequeuesKept(Step(s, Kick(i, x)))
  {
    AdvanceKeepsRequeues(s, i, KickErased(x));
    FrameKeepsRequeues(Advance(s, i, KickErased(x)), Step(s, Kick(i, x)));
  }

  lemma StepKeepsRequeues(s: System, a: Action)
    requires Barrier(s) && RequeuesKept(s) && Enabled(s, a)
    ensures RequeuesKept(Step(s, a))
  {
    hide RequeuesKept, Without, Only;
    match a
    case Manage(ready) => ManageKeepsRequeues(s, ready); hide ManageStep;
    case Begin(i) => AdvanceKeepsRequeues(s, i, Running);
    case Kick(i, x) => KickKeepsRequeues(s, i, x); hide Barrier;
    case KickOn(i, ready) => KickOnKeepsRequeues(s, i, ready); hide KickOnStep;
    case Return(i, c) => AdvanceKeepsRequeues(s, i, Returned(c));
    case Settle(i) => SettleKeepsRequeues(s, i); hide SettleStep;
    case Finish(i) => FinishKeepsRequeues(s, i);
    case KickOutside(x) => FrameOnly(s, a);
    case DetachMark(id) => FrameOnly(s, a);
    case DetachSweepNext(id) => SweepNextKeepsRequeues(s, id);
    case DetachSweep(p, id) => FrameOnly(s, a);
  }

  lemma FrameOnly(s: System, a: Action)
    requires RequeuesKept(s) && Enabled(s, a) && (a.KickOutside? || a.DetachMark? || a.DetachSweep?)
    ensures RequeuesKept(Step(s, a))
  {
    FrameKeepsRequeues(s, Step(s, a));
  }

  lemma {:induction false} RunKeepsRequeues(s: System, acts: seq<Action>)
    requires Barrier(s) && Single(s) && RequeuesKept(s) && Valid(s, acts) && FreshRun(s, acts)
    ensures RequeuesKept(Last(s, acts))
    decreases |acts|
  {
    if acts == [] {
    } else {
      if acts[0].Finish? {
        SingleFinishesAlone(s, acts[0].run);
      }
      StepKeepsBarrier(s, acts[0]);
      StepKeepsSingle(s, acts[0]);
      StepKeepsRequeues(s, acts[0]);
      RunKeepsRequeues(Step(s, acts[0]), acts[1..]);
    }
  }

  /** When InvokeCycleAndWait has returned, every synchronous run of the cycle is done, and each one that
      returned REQUEUE and was not detached has its job in the next-cycle queue exactly once. */
  lemma RequeuesAreComplete(acts: seq<Action>, i: nat)
    requires Valid(START, acts) && FreshRun(START, acts)
    requires var s := Last(START, acts);
      s.manager.Idle? && i < |s.runs| && !s.runs[i].job.async && s.runs[i].cycle == s.cycle
    ensures var s := Last(START, acts); var r := s.runs[i];
      && r.pc.Done?
      && (r.pc.outcome != Disposed && r.job.id !in s.detached ==> Times(s.next, r.job) == 1)
  {
    StartSingle();
    FreshRunsAreOrderly(START, acts);
    RunKeepsRequeues(START, acts);
    var s := Last(START, acts);
    var r := s.runs[i];
    NoneLive(s);
    assert !Live(r) && Promised(s, r);
    assert Places(s, r.job) <= 1;
  }

  // ---- Detach ----

  predicate Lacks(q: seq<Job>, id: string) {
    forall k :: 0 <= k < |q| ==> q[k].id != id
  }

  predicate LoopWithout(l: Loop, id: string) {
    match l
    case Popped(j) => j.id != id
    case Deferring(j) => j.id != id
    case Counted(j, _) => j.id != id
    case _ => true
  }

  predicate ManagerWithout(m: ManagerPc, id: string) {
    match m
    case DrainPopped(j) => j.id != id
    case DrainErased(j) => j.id != id
    case Looping(_, l) => LoopWithout(l, id)
    case _ => true
  }

  predicate CarriesOthers(pc: RunPc, id: string) {
    match pc
    case KickErased(j) => j.id != id
    case InLoop(_, l) => LoopWithout(l, id)
    case _ => true
  }

  /** This run may still ask to be requeued. */
  predicate MayRequeue(pc: RunPc) {
    pc != Returned(Dispose) && !pc.Requeueing? && !pc.Finishing? && !pc.Done?
  }

  predicate RunDetached(s: System, r: Run, id: string) {
    && CarriesOthers(r.pc, id)
    && (r.job.id == id ==>
          !r.pc.Requeueing? && (MayRequeue(r.pc) ==> id in s.blacklist))
  }

  /** No queue and no actor holds a job with this id, and its runs in flight cannot requeue. */
  predicate Detached(s: System, id: string) {
    && Lacks(s.queues.init, id) && Lacks(s.queues.main, id) && Lacks(s.queues.cleanUp, id)
    && Lacks(s.next, id)
    && ManagerWithout(s.manager, id)
    && (forall i :: 0 <= i < |s.runs| ==> RunDetached(s, s.runs[i], id))
  }

  predicate KicksOthers(a: Action, id: string) {
    match a
    case Kick(_, j) => j.id != id
    case KickOutside(j) => j.id != id
    case _ => true
  }

  lemma LacksWithout(q: seq<Job>, id: string, other: string)
    requires Lacks(q, id)
    ensures Lacks(Without(q, other), id)
  {
    WithoutSplits(q, other);
    forall k | 0 <= k < |Without(q, other)| ensures Without(q, other)[k].id != id {
      assert Without(q, other)[k] in q;
    }
  }

  lemma LoopStaysDetached(s: System, id: string, p: Phase, l: Loop, ready: bool)
    requires Detached(s, id) && !l.Exited? && LoopWithout(l, id)
    ensures var (s', l') := LoopStep(s, p, l, ready);
      && Detached(s', id) && LoopWithout(l', id) && s'.manager == s.manager
      && (forall i :: 0 <= i < |s.runs| ==> s'.runs[i] == s.runs[i])
      && |s.runs| <= |s'.runs| && s'.blacklist == s.blacklist
      && (forall i :: |s.runs| <= i < |s'.runs| ==> s'.runs[i].job.id != id)
  {
    if l.Top? && s.queues.At(p) != [] {
      assert Lacks(s.queues.At(p)[1..], id);
    }
  }

  lemma AdvanceStaysDetached(s: System, id: string, i: nat, pc: RunPc)
    requires Detached(s, id) && i < |s.runs| && RunDetached(s, s.runs[i].(pc := pc), id)
    ensures Detached(Advance(s, i, pc), id)
  {
    var s' := Advance(s, i, pc);
    forall k | 0 <= k < |s'.runs| ensures RunDetached(s', s'.runs[k], id) {
      assert RunDetached(s, s.runs[k], id) && RunDetached(s, s.runs[i].(pc := pc), id);
    }
  }

  /** Changes outside the runs that keep the id blacklisted and add no job with it. */
  lemma FrameStaysDetached(s: System, s': System, id: string)
    requires Detached(s, id) && s'.runs == s.runs && s'.manager == s.manager
    requires id in s.blacklist ==> id in s'.blacklist
    requires Lacks(s'.next, id) && forall p: Phase :: Lacks(s'.queues.At(p), id)
    ensures Detached(s', id)
  {
    forall k | 0 <= k < |s'.runs| ensures RunDetached(s', s'.runs[k], id) {
      assert RunDetached(s, s.runs[k], id);
    }
    assert Lacks(s'.queues.At(Init), id) && Lacks(s'.queues.At(Main), id) && Lacks(s'.queues.At(CleanUp), id);
  }

  lemma ManageLoopStaysDetached(s: System, id: string, ready: bool)
    requires Detached(s, id) && ManageEnabled(s) && s.manager.Looping?
    ensures Detached(ManageStep(s, ready), id)
  {
    LoopStaysDetached(s, id, s.manager.phase, s.manager.loop, ready);
    hide LoopStep;
    var s1, s' := LoopStep(s, s.manager.phase, s.manager.loop, ready).0, ManageStep(s, ready);
    forall k | 0 <= k < |s'.runs| ensures RunDetached(s', s'.runs[k], id) {
      assert RunDetached(s1, s1.runs[k], id);
    }
  }

  /** The blacklist is cleared when a cycle is about to begin and when it has ended. */
  predicate Clears(s: System, a: Action) {
    a.Manage? && (s.manager.Idle? || s.manager.Closing?)
  }

  /** No run of this id may still ask to be requeued when the blacklist is cleared. */
  predicate ClearsLate(s: System, a: Action, id: string) {
    Clears(s, a) ==> forall i :: 0 <= i < |s.runs| && s.runs[i].job.id == id ==> !MayRequeue(s.runs[i].pc)
  }

  lemma ManageStaysDetached(s: System, id: string, ready: bool)
    requires Detached(s, id) && ManageEnabled(s) && ClearsLate(s, Manage(ready), id)
    ensures Detached(ManageStep(s, ready), id)
  {
    if s.manager.Looping? {
      ManageLoopStaysDetached(s, id, ready);
    } else {
      var s' := ManageStep(s, ready);
      hide LoopStep;
      assert s.manager.Draining? && s.next != [] ==> s.next[0].id != id && Lacks(s.next[1..], id);
      forall k | 0 <= k < |s'.runs| ensures RunDetached(s', s'.runs[k], id) {
        assert RunDetached(s, s.runs[k], id);
      }
    }
  }

  lemma KickOnStaysDetached(s: System, id: string, i: nat, ready: bool)
    requires Detached(s, id) && Enabled(s, KickOn(i, ready))
    ensures Detached(KickOnStep(s, i, ready), id)
  {
    assert RunDetached(s, s.runs[i], id);
    match s.runs[i].pc
    case KickErased(x) =>
      FrameStaysDetached(s, Push(s, x), id);
      AdvanceStaysDetached(Push(s, x), id, i, KickPushed(x.phase));
      hide Detached;
    case KickPushed(p) =>
      AdvanceStaysDetached(s, id, i, if s.state == CycleOf(p) then InLoop(p, Top) else Running);
      hide Detached;
    case InLoop(p, l) =>
      LoopStaysDetached(s, id, p, l, ready);
      var (s', l') := LoopStep(s, p, l, ready);
      AdvanceStaysDetached(s', id, i, if l'.Exited? then Running else InLoop(p, l'));
      hide Detached, LoopStep;
  }

  lemma SettleStaysDetached(s: System, id: string, i: nat)
    requires Detached(s, id) && Enabled(s, Settle(i))
    ensures Detached(SettleStep(s, i), id)
  {
    var pc, s' := SettleStep(s, i).runs[i].pc, SettleStep(s, i);
    assert RunDetached(s, s.runs[i], id);
    var s1 := s.(next := s'.next, gone := s'.gone);
    FrameStaysDetached(s, s1, id);
    AdvanceStaysDetached(s1, id, i, pc);
    assert s' == Advance(s1, i, pc);
    hide Detached;
  }

  lemma RunStepStaysDetached(s: System, id: string, a: Action)
    requires Detached(s, id) && Enabled(s, a) && KicksOthers(a, id)
    requires a.Begin? || a.Return? || a.Kick? || a.Finish?
    ensures Detached(Step(s, a), id)
  {
    var i := a.run;
    assert RunDetached(s, s.runs[i], id);
    var s1 := if a.Kick? then s.(blacklist := s.blacklist - {a.job.id}, kicked := s.kicked + multiset{a.job})
              else if a.Finish? then DropCounters(s, s.runs[i].job) else s;
    FrameStaysDetached(s, s1, id);
    AdvanceStaysDetached(s1, id, i, Step(s, a).runs[i].pc);
    assert Step(s, a) == Advance(s1, i, Step(s, a).runs[i].pc);
    hide Detached;
  }

  lemma OutsideStaysDetached(s: System, id: string, a: Action)
    requires Detached(s, id) && Enabled(s, a) && KicksOthers(a, id)
    requires a.KickOutside? || a.DetachMark? || a.DetachSweepNext? || a.DetachSweep?
    ensures Detached(Step(s, a), id)
  {
    if a.DetachSweepNext? {
      LacksWithout(s.next, id, a.id);
    } else if a.DetachSweep? {
      LacksWithout(s.queues.At(a.queue), id, a.id);
    }
    hide Without, Only;
    FrameStaysDetached(s, Step(s, a), id);
    hide Detached;
  }

  lemma StepStaysDetached(s: System, id: string, a: Action)
    requires Detached(s, id) && Enabled(s, a) && KicksOthers(a, id) && ClearsLate(s, a, id)
    ensures Detached(Step(s, a), id)
  {
    hide Detached, ClearsLate;
    match a
    case Manage(ready) => ManageStaysDetached(s, id, ready); hide ManageStep;
    case KickOn(i, ready) => KickOnStaysDetached(s, id, i, ready); hide KickOnStep;
    case Settle(i) => SettleStaysDetached(s, id, i); hide SettleStep;
    case Begin(_) => RunStepStaysDetached(s, id, a);
    case Kick(_, _) => RunStepStaysDetached(s, id, a);
    case Return(_, _) => RunStepStaysDetached(s, id, a);
    case Finish(_) => RunStepStaysDetached(s, id, a);
    case _ => OutsideStaysDetached(s, id, a);
  }

  /** Runs are only ever added, for other ids; a run keeps its job; a run of this id does not become
      requeued. */
  predicate NoNewRun(s: System, s': System, id: string) {
    && |s.runs| <= |s'.runs|
    && (forall i :: |s.runs| <= i < |s'.runs| ==> s'.runs[i].job.id != id)
    && (forall i :: 0 <= i < |s.runs| ==> s'.runs[i].job == s.runs[i].job)
    && (forall i :: 0 <= i < |s.runs| && s.runs[i].job.id == id && EndedAs(s'.runs[i].pc, Requeued) ==>
          EndedAs(s.runs[i].pc, Requeued))
  }

  /** One run has moved on, and nothing else has happened to the runs. */
  lemma AdvanceNoNewRun(s: System, s': System, id: string, i: nat, pc: RunPc)
    requires i < |s.runs| && |s'.runs| >= |s.runs| && s'.runs[i] == s.runs[i].(pc := pc)
    requires forall k :: 0 <= k < |s.runs| && k != i ==> s'.runs[k] == s.runs[k]
    requires forall k :: |s.runs| <= k < |s'.runs| ==> s'.runs[k].job.id != id
    requires s.runs[i].job.id == id && EndedAs(pc, Requeued) ==> EndedAs(s.runs[i].pc, Requeued)
    ensures NoNewRun(s, s', id)
  {
  }

  lemma LoopNoNewRun(s: System, id: string, a: Action)
    requires Detached(s, id) && Enabled(s, a)
    requires (a.Manage? && s.manager.Looping?) || (a.KickOn? && s.runs[a.run].pc.InLoop?)
    ensures NoNewRun(s, Step(s, a), id)
  {
    hide LoopStep;
    if a.Manage? {
      LoopStaysDetached(s, id, s.manager.phase, s.manager.loop, a.ready);
      hide Detached, RunDetached;
    } else {
      assert RunDetached(s, s.runs[a.run], id);
      LoopStaysDetached(s, id, s.runs[a.run].pc.queue, s.runs[a.run].pc.loop, a.ready);
      hide Detached, RunDetached, NoNewRun;
      var s' := Step(s, a);
      AdvanceNoNewRun(s, s', id, a.run, s'.runs[a.run].pc);
    }
  }

  lemma SettleNoNewRun(s: System, id: string, i: nat)
    requires Detached(s, id) && Enabled(s, Settle(i))
    ensures NoNewRun(s, Step(s, Settle(i)), id)
  {
    assert RunDetached(s, s.runs[i], id);
    hide Detached, NoNewRun;
    var s' := Step(s, Settle(i));
    AdvanceNoNewRun(s, s', id, i, s'.runs[i].pc);
  }

  lemma StepNoNewRun(s: System, id: string, a: Action)
    requires Detached(s, id) && Enabled(s, a)
    ensures NoNewRun(s, Step(s, a), id)
  {
    hide Detached, LoopStep, Without, Only;
    if (a.Manage? && s.manager.Looping?) || (a.KickOn? && s.runs[a.run].pc.InLoop?) {
      LoopNoNewRun(s, id, a);
      hide NoNewRun, Step;
    } else if a.Settle? {
      SettleNoNewRun(s, id, a.run);
      hide NoNewRun, Step;
    } else if a.Begin? || a.Return? || a.Kick? || a.KickOn? || a.Finish? {
      RunMovesNoNewRun(s, id, a);
      hide NoNewRun, Step;
    }
  }

  lemma RunMovesNoNewRun(s: System, id: string, a: Action)
    requires Enabled(s, a) && (a.Begin? || a.Return? || a.Kick? || a.KickOn? || a.Finish?)
    requires a.KickOn? ==> !s.runs[a.run].pc.InLoop?
    ensures NoNewRun(s, Step(s, a), id)
  {
    var s' := Step(s, a);
    hide NoNewRun;
    AdvanceNoNewRun(s, s', id, a.run, s'.runs[a.run].pc);
  }

  predicate KickNever(acts: seq<Action>, id: string) {
    forall k :: 0 <= k < |acts| ==> KicksOthers(acts[k], id)
  }

  ghost predicate AlwaysClearsLate(s: System, acts: seq<Action>, id: string)
    requires Valid(s, acts)
    decreases |acts|
  {
    acts == [] || (ClearsLate(s, acts[0], id) && AlwaysClearsLate(Step(s, acts[0]), acts[1..], id))
  }

  /** After a detach, as long as nobody kicks the id again and no run of it outlives the blacklist: no queue ever
      holds it, no later run executes it, and the runs that were in flight come to an end without being requeued. */
  lemma {:induction false} DetachSticks(s: System, id: string, acts: seq<Action>)
    requires Detached(s, id) && Valid(s, acts) && KickNever(acts, id) && AlwaysClearsLate(s, acts, id)
    ensures Detached(Last(s, acts), id) && NoNewRun(s, Last(s, acts), id)
    decreases |acts|
  {
    if acts == [] {
    } else {
      assert KicksOthers(acts[0], id);
      StepStaysDetached(s, id, acts[0]);
      StepNoNewRun(s, id, acts[0]);
      DetachSticks(Step(s, acts[0]), id, acts[1..]);
      hide Step, Detached, ClearsLate;
    }
  }

  predicate OnlySynchronous(s: System, id: string) {
    forall i :: 0 <= i < |s.runs| && s.runs[i].job.id == id && !s.runs[i].pc.Done? ==> !s.runs[i].job.async
  }

  lemma StepKeepsSynchronous(s: System, id: string, a: Action)
    requires Detached(s, id) && Enabled(s, a) && OnlySynchronous(s, id)
    ensures OnlySynchronous(Step(s, a), id)
  {
    StepNoNewRun(s, id, a);
    var s' := Step(s, a);
    forall i | 0 <= i < |s'.runs| && s'.runs[i].job.id == id && !s'.runs[i].pc.Done? ensures !s'.runs[i].job.async {
      assert i < |s.runs| && s'.runs[i].job == s.runs[i].job;
      if s.runs[i].pc.Done? { DoneStaysDone(s, a, i); }
    }
    hide Step, Detached;
  }

  lemma DoneStaysDone(s: System, a: Action, i: nat)
    requires Enabled(s, a) && i < |s.runs| && s.runs[i].pc.Done?
    ensures i < |Step(s, a).runs| && Step(s, a).runs[i] == s.runs[i]
  {
    assert !ActsOn(a, i);
    LeavesRunAlone(s, a, i);
    hide Step;
  }

  /** Where the barrier holds, no synchronous run outlives the blacklist. */
  lemma {:induction false} OrderlyRunsClearLate(s: System, id: string, acts: seq<Action>)
    requires Barrier(s) && Detached(s, id) && OnlySynchronous(s, id) && Valid(s, acts) && Orderly(s, acts)
    requires KickNever(acts, id)
    ensures AlwaysClearsLate(s, acts, id)
    decreases |acts|
  {
    if acts == [] {
    } else {
      var a := acts[0];
      assert KicksOthers(a, id);
      if Clears(s, a) { NoneLive(s); }
      StepKeepsBarrier(s, a);
      StepStaysDetached(s, id, a);
      StepKeepsSynchronous(s, id, a);
      OrderlyRunsClearLate(Step(s, a), id, acts[1..]);
      hide Step, Barrier, Detached;
    }
  }

  function DetachCall(id: string): seq<Action> {
    [DetachMark(id)] + ([DetachSweepNext(id)] + ([DetachSweep(Init, id)] + ([DetachSweep(Main, id)]
      + ([DetachSweep(CleanUp, id)] + []))))
  }

  lemma FirstStep(s: System, a: Action, rest: seq<Action>)
    requires Enabled(s, a) && Valid(Step(s, a), rest)
    ensures Valid(s, [a] + rest) && Last(s, [a] + rest) == Last(Step(s, a), rest)
  {
    assert ([a] + rest)[1..] == rest;
  }

  /** No actor is between taking a job with this id out of one place and putting it into another. */
  predicate QuietFor(s: System, id: string) {
    && ManagerWithout(s.manager, id)
    && (forall i :: 0 <= i < |s.runs| ==>
          && CarriesOthers(s.runs[i].pc, id)
          && (s.runs[i].job.id == id ==> !s.runs[i].pc.Requeueing?))
  }

  lemma SweptLacks(q: seq<Job>, id: string)
    ensures Lacks(Without(q, id), id)
  {
    WithoutSplits(q, id);
    forall k | 0 <= k < |Without(q, id)| ensures Without(q, id)[k].id != id {
      assert Without(q, id)[k] in Without(q, id);
    }
  }

  /** An undisturbed DetachJob call, made while no other call is halfway with this id, detaches it and
      leaves every other job where it was, in order. */
  lemma DetachCallDetaches(s: System, id: string)
    requires QuietFor(s, id)
    ensures Valid(s, DetachCall(id))
    ensures var s' := Last(s, DetachCall(id));
      && Detached(s', id) && id in s'.blacklist && s'.runs == s.runs
      && s'.next == Without(s.next, id) && forall p: Phase :: s'.queues.At(p) == Without(s.queues.At(p), id)
  {
    hide Without, Only;
    var s1 := Step(s, DetachMark(id));
    var s2 := Step(s1, DetachSweepNext(id));
    var s3 := Step(s2, DetachSweep(Init, id));
    var s4 := Step(s3, DetachSweep(Main, id));
    var s5 := Step(s4, DetachSweep(CleanUp, id));
    DetachCallRuns(s, id);
    hide Last, Valid, DetachCall;
    SweptLacks(s.next, id);
    SweptLacks(s.queues.init, id);
    SweptLacks(s.queues.main, id);
    SweptLacks(s.queues.cleanUp, id);
    forall i | 0 <= i < |s5.runs| ensures RunDetached(s5, s5.runs[i], id) {
      assert CarriesOthers(s.runs[i].pc, id);
    }
  }

  lemma DetachCallRuns(s: System, id: string)
    ensures Valid(s, DetachCall(id))
    ensures Last(s, DetachCall(id)) == Step(Step(Step(Step(Step(s, DetachMark(id)), DetachSweepNext(id)),
      DetachSweep(Init, id)), DetachSweep(Main, id)), DetachSweep(CleanUp, id))
  {
    hide Without, Only, Step;
    var s1 := Step(s, DetachMark(id));
    var s2 := Step(s1, DetachSweepNext(id));
    var s3 := Step(s2, DetachSweep(Init, id));
    var s4 := Step(s3, DetachSweep(Main, id));
    FirstStep(s4, DetachSweep(CleanUp, id), []);
    FirstStep(s3, DetachSweep(Main, id), [DetachSweep(CleanUp, id)] + []);
    FirstStep(s2, DetachSweep(Init, id), [DetachSweep(Main, id)] + ([DetachSweep(CleanUp, id)] + []));
    FirstStep(s1, DetachSweepNext(id),
              [DetachSweep(Init, id)] + ([DetachSweep(Main, id)] + ([DetachSweep(CleanUp, id)] + [])));
    FirstStep(s, DetachMark(id), [DetachSweepNext(id)] + ([DetachSweep(Init, id)] + ([DetachSweep(Main, id)]
              + ([DetachSweep(CleanUp, id)] + []))));
  }

  // ---- Kicking a job that is still in flight ----

  lemma {:induction false} Extend(s: System, acts: seq<Action>, a: Action)
    requires Valid(s, acts) && PhaseKicks(s, acts) && Enabled(Last(s, acts), a) && KicksFromPhase(Last(s, acts), a)
    ensures Valid(s, acts + [a]) && PhaseKicks(s, acts + [a]) && Last(s, acts + [a]) == Step(Last(s, acts), a)
    decreases |acts|
  {
    if acts == [] {
      assert ([] + [a])[1..] == [];
    } else {
      Extend(Step(s, acts[0]), acts[1..], a);
      assert (acts + [a])[1..] == acts[1..] + [a];
    }
  }

  /** States reachable from the start with kicks from the running phase only. */
  ghost predicate Reachable(s: System) {
    exists acts :: Valid(START, acts) && PhaseKicks(START, acts) && Last(START, acts) == s
  }

  lemma Reach(s: System, a: Action)
    requires Reachable(s) && Enabled(s, a) && KicksFromPhase(s, a)
    ensures Reachable(Step(s, a))
  {
    var acts :| Valid(START, acts) && PhaseKicks(START, acts) && Last(START, acts) == s;
    Extend(START, acts, a);
  }

  lemma StartReachable()
    ensures Reachable(START)
  {
    assert Valid(START, []) && PhaseKicks(START, []) && Last(START, []) == START;
  }

  /** One cycle with the single synchronous job `SELFISH`: its first run is in flight, `runs` are all
      runs so far, n entries of it are on the counter of the first phase. */
  const SELFISH := Job(0, "a", Init, false)

  function Stage(m: ManagerPc, queue: seq<Job>, n: nat, runs: seq<Run>, kicked: nat, gone: nat): System {
    System(CycleInit, m, PerPhase(queue, [], []), [], {}, PerPhase(n, 0, 0),
           PerPhase(multiset{}[SELFISH := n], multiset{}, multiset{}), 1, runs,
           multiset{}[SELFISH := kicked], multiset{}[SELFISH := gone], multiset{}, {})
  }

  lemma SelfishFacts()
    ensures [SELFISH][1..] == [] && [] + [SELFISH] == [SELFISH]
    ensures var none: multiset<Job> := multiset{};
      && none[SELFISH := 0] == none && none + multiset{SELFISH} == none[SELFISH := 1]
      && none[SELFISH := 1] + multiset{SELFISH} == none[SELFISH := 2]
      && none[SELFISH := 2][SELFISH := 0] == none
    ensures var none: set<string> := {}; none - {SELFISH.id} == none
  {
  }

  lemma SelfishStarts()
    ensures Reachable(Stage(Looping(Init, Top), [SELFISH], 0, [], 1, 0))
  {
    SelfishFacts();
    StartReachable();
    hide Reachable;
    Reach(START, KickOutside(SELFISH));
    var s1 := Step(START, KickOutside(SELFISH));
    Reach(s1, Manage(true));
    var s2 := Step(s1, Manage(true));
    Reach(s2, Manage(true));
    var s3 := Step(s2, Manage(true));
    Reach(s3, Manage(true));
    var s4 := Step(s3, Manage(true));
    Reach(s4, Manage(true));
    assert Step(s4, Manage(true)) == Stage(Looping(Init, Top), [SELFISH], 0, [], 1, 0);
  }

  lemma SelfishRuns()
    ensures Reachable(Stage(Waiting(Init), [], 1, [Run(SELFISH, 1, Running)], 1, 0))
  {
    SelfishFacts();
    SelfishStarts();
    hide Reachable;
    var s1 := Stage(Looping(Init, Top), [SELFISH], 0, [], 1, 0);
    Reach(s1, Manage(true));
    var s2 := Stage(Looping(Init, Popped(SELFISH)), [], 0, [], 1, 0);
    assert Step(s1, Manage(true)) == s2;
    Reach(s2, Manage(true));
    var s3 := Stage(Looping(Init, Counted(SELFISH, 1)), [], 1, [], 1, 0);
    assert Step(s2, Manage(true)) == s3;
    Reach(s3, Manage(true));
    var s4 := Stage(Looping(Init, Top), [], 1, [Run(SELFISH, 1, Awaiting)], 1, 0);
    assert Step(s3, Manage(true)) == s4;
    Reach(s4, Manage(true));
    var s5 := Stage(Waiting(Init), [], 1, [Run(SELFISH, 1, Awaiting)], 1, 0);
    assert Step(s4, Manage(true)) == s5;
    Reach(s5, Begin(0));
    assert Step(s5, Begin(0)) == Stage(Waiting(Init), [], 1, [Run(SELFISH, 1, Running)], 1, 0);
  }

  function Kicker(pc: RunPc): seq<Run> {
    [Run(SELFISH, 1, pc)]
  }

  lemma SelfishKicks()
    ensures Reachable(Stage(Waiting(Init), [], 2, [Run(SELFISH, 1, Running), Run(SELFISH, 1, Awaiting)], 2, 0))
  {
    SelfishFacts();
    SelfishRuns();
    hide Reachable;
    var w := Waiting(Init);
    var s1 := Stage(w, [], 1, Kicker(Running), 1, 0);
    Reach(s1, Kick(0, SELFISH));
    var s2 := Stage(w, [], 1, Kicker(KickErased(SELFISH)), 2, 0);
    assert Step(s1, Kick(0, SELFISH)) == s2;
    Reach(s2, KickOn(0, true));
    var s3 := Stage(w, [SELFISH], 1, Kicker(KickPushed(Init)), 2, 0);
    assert Step(s2, KickOn(0, true)) == s3;
    Reach(s3, KickOn(0, true));
    var s4 := Stage(w, [SELFISH], 1, Kicker(InLoop(Init, Top)), 2, 0);
    assert Step(s3, KickOn(0, true)) == s4;
    SelfishSchedules(s4);
  }

  lemma SelfishSchedules(s4: System)
    requires s4 == Stage(Waiting(Init), [SELFISH], 1, Kicker(InLoop(Init, Top)), 2, 0) && Reachable(s4)
    ensures Reachable(Stage(Waiting(Init), [], 2, [Run(SELFISH, 1, Running), Run(SELFISH, 1, Awaiting)], 2, 0))
  {
    SelfishFacts();
    hide Reachable;
    var w := Waiting(Init);
    Reach(s4, KickOn(0, true));
    var s5 := Stage(w, [], 1, Kicker(InLoop(Init, Popped(SELFISH))), 2, 0);
    assert Step(s4, KickOn(0, true)) == s5;
    Reach(s5, KickOn(0, true));
    var s6 := Stage(w, [], 2, Kicker(InLoop(Init, Counted(SELFISH, 1))), 2, 0);
    assert Step(s5, KickOn(0, true)) == s6;
    Reach(s6, KickOn(0, true));
    var s7 := Stage(w, [], 2, [Run(SELFISH, 1, InLoop(Init, Top)), Run(SELFISH, 1, Awaiting)], 2, 0);
    assert Step(s6, KickOn(0, true)) == s7;
    Reach(s7, KickOn(0, true));
    assert Step(s7, KickOn(0, true))
        == Stage(w, [], 2, [Run(SELFISH, 1, Running), Run(SELFISH, 1, Awaiting)], 2, 0);
  }

  /** One synchronous job that kicks itself once breaks the barrier: when the first of its two runs
      finishes, FinishJob takes both entries off the phase counter, and the phase is left although the
      second run has not even started. */
  lemma SelfKickBreaksTheBarrier()
    ensures exists s, i :: Reachable(s) && s.manager == Leaving(Init) && 0 <= i < |s.runs| && Live(s.runs[i])
  {
    SelfishFacts();
    SelfishKicks();
    hide Reachable;
    var w, other := Waiting(Init), Run(SELFISH, 1, Awaiting);
    var s1 := Stage(w, [], 2, [Run(SELFISH, 1, Running), other], 2, 0);
    Reach(s1, Return(0, Dispose));
    var s2 := Stage(w, [], 2, [Run(SELFISH, 1, Returned(Dispose)), other], 2, 0);
    assert Step(s1, Return(0, Dispose)) == s2;
    Reach(s2, Settle(0));
    var s3 := Stage(w, [], 2, [Run(SELFISH, 1, Finishing(Disposed)), other], 2, 1);
    assert Step(s2, Settle(0)) == s3;
    Reach(s3, Finish(0));
    var s4 := Stage(w, [], 0, [Run(SELFISH, 1, Done(Disposed)), other], 2, 1);
    assert Step(s3, Finish(0)) == s4;
    Reach(s4, Manage(true));
    var s5 := Step(s4, Manage(true));
    assert s5.manager == Leaving(Init) && Live(s5.runs[1]);
  }
}
