/** How a run of the system can go on without further kicks, with every job ready and all mutexes respected. */
module Continuations {
  import opened JobModel
  import opened Scheduler
  import opened JobConservation
  import opened PhaseCounters
  import opened PhaseBarrier
  import opened QueueLocks

  predicate IsKick(a: Action) {
    a.Kick? || a.KickOutside?
  }

  predicate Kickless(acts: seq<Action>) {
    forall k :: 0 <= k < |acts| ==> !IsKick(acts[k])
  }

  /** Wherever the step asks a job whether it is ready, it is. */
  predicate AllReady(a: Action) {
    match a
    case Manage(ready) => ready
    case KickOn(_, ready) => ready
    case _ => true
  }

  /** The mutexes are respected and every job is ready. */
  ghost predicate Lawful(s: System, acts: seq<Action>)
    requires Valid(s, acts)
  {
    Disciplined(s, acts) && forall k :: 0 <= k < |acts| ==> AllReady(acts[k])
  }

  /** The manager leaves a phase although a synchronous job is scheduled or running. */
  predicate Broken(s: System) {
    s.manager.Leaving? && exists i :: 0 <= i < |s.runs| && Live(s.runs[i])
  }

  /** Some continuation without further kicks breaks the barrier; if asked for, a lawful one. */
  ghost predicate Breaks(s: System, lawful: bool) {
    exists acts :: Valid(s, acts) && Kickless(acts) && (lawful ==> Lawful(s, acts)) && Broken(Last(s, acts))
  }

  lemma BrokenBreaks(s: System)
    requires Broken(s)
    ensures Breaks(s, true)
  {
    assert Valid(s, []) && Kickless([]) && Lawful(s, []) && Broken(Last(s, []));
  }

  /** A step that a continuation may take. */
  predicate May(s: System, a: Action) {
    Enabled(s, a) && !IsKick(a) && AllReady(a) && LocksFree(s, a)
  }

  lemma Then(s: System, a: Action)
    requires May(s, a) && Breaks(Step(s, a), true)
    ensures Breaks(s, true)
  {
    var rest :| Valid(Step(s, a), rest) && Kickless(rest) && Lawful(Step(s, a), rest) && Broken(Last(Step(s, a), rest));
    var acts := [a] + rest;
    assert acts[1..] == rest;
    assert Valid(s, acts) && Kickless(acts) && Last(s, acts) == Last(Step(s, a), rest);
    assert Lawful(s, acts);
  }

  // ---- The invariant of the continuations ----

  ghost predicate Steady(s: System) {
    Stands(s) && NoOrphans(s) && Exclusive(s)
  }

  lemma StepKeepsSteady(s: System, a: Action)
    requires Steady(s) && May(s, a) && (a.Manage? && s.manager.Waiting? ==> NobodyLive(s))
    ensures Steady(Step(s, a))
  {
    assert Sorted(s);
    hide Step, Stands, NoOrphans, Sorted, Exclusive, LocksFree;
    StepStands(s, a);
    StepKeepsNoOrphans(s, a);
    StepKeepsExclusive(s, a);
  }

  // ---- Two runs of one job on a counter ----

  /** Nothing but j is in the counter queues of phase p. */
  ghost predicate OnlyHeld(s: System, p: Phase, j: Job) {
    forall x: Job :: x != j ==> s.held.At(p)[x] == 0
  }

  /** The first of two runs to finish takes both entries off the counter. */
  lemma FinishOneBreaks(s: System, p: Phase, i: nat, n: nat, j: Job)
    requires s.manager == Waiting(p) && CountersAgree(s) && OnlyHeld(s, p, j)
    requires i < |s.runs| && n < |s.runs| && i != n && s.runs[i].job == j && Live(s.runs[n])
    requires s.runs[i].pc.Finishing?
    ensures Breaks(s, true)
  {
    var s1 := Step(s, Finish(i));
    StepKeepsAgreement(s, Finish(i));
    forall x: Job ensures s1.held.At(p)[x] == 0 {
      assert x != j ==> s.held.At(p)[x] == 0;
    }
    assert s1.held.At(p) == multiset{};
    assert s1.counts.At(p) == |s1.held.At(p)|;
    var s2 := Step(s1, Manage(true));
    assert Live(s2.runs[n]);
    hide Step;
    BrokenBreaks(s2);
    Then(s1, Manage(true));
    Then(s, Finish(i));
  }

  /** The next step of a run that is not kicking on its way to its end. */
  function Ending(i: nat, pc: RunPc): Action {
    match pc
    case Awaiting => Begin(i)
    case Running => Return(i, Dispose)
    case _ => Settle(i)
  }

  lemma EndingMoves(s: System, p: Phase, i: nat, n: nat)
    requires s.manager == Waiting(p) && i < |s.runs| && n < |s.runs| && i != n
    requires !s.runs[i].pc.Done? && !s.runs[i].pc.Finishing? && !Kicking(s.runs[i].pc)
    ensures May(s, Ending(i, s.runs[i].pc))
    ensures var s' := Step(s, Ending(i, s.runs[i].pc));
      && s'.manager == s.manager && s'.counts == s.counts && s'.held == s.held
      && |s'.runs| == |s.runs| && s'.runs[n] == s.runs[n] && s'.runs[i].job == s.runs[i].job
      && !s'.runs[i].pc.Done? && !Kicking(s'.runs[i].pc) && RunEffort(s'.runs[i].pc) < RunEffort(s.runs[i].pc)
  {
    hide ManageStep, KickOnStep, Without, Only;
  }

  lemma {:induction false} TwinsBreak(s: System, p: Phase, i: nat, n: nat, j: Job)
    requires s.manager == Waiting(p) && CountersAgree(s) && OnlyHeld(s, p, j)
    requires i < |s.runs| && n < |s.runs| && i != n && s.runs[i].job == j && Live(s.runs[n])
    requires !s.runs[i].pc.Done? && !Kicking(s.runs[i].pc)
    ensures Breaks(s, true)
    decreases RunEffort(s.runs[i].pc)
  {
    if s.runs[i].pc.Finishing? {
      FinishOneBreaks(s, p, i, n, j);
    } else {
      var a := Ending(i, s.runs[i].pc);
      EndingMoves(s, p, i, n);
      hide Step, RunEffort, May;
      TwinsBreak(Step(s, a), p, i, n, j);
      Then(s, a);
    }
  }

  // ---- Running on ----

  function LoopEffort(l: Loop): nat {
    match l
    case Exited => 0
    case Top => 1
    case Deferring(_) => 2
    case Popped(_) => 8
    case Counted(_, _) => 7
  }

  /** Steps a run has before it, at most. */
  function RunEffort(pc: RunPc): nat {
    match pc
    case Done(_) => 0
    case Finishing(_) => 1
    case Requeueing => 2
    case Returned(_) => 3
    case Running => 4
    case Awaiting => 5
    case InLoop(_, l) => 4 + LoopEffort(l)
    case KickPushed(_) => 6
    case KickErased(_) => 15
  }

  function Efforts(runs: seq<Run>): nat {
    if runs == [] then 0 else Efforts(runs[..|runs| - 1]) + RunEffort(runs[|runs| - 1].pc)
  }

  lemma EffortsAppend(runs: seq<Run>, r: Run)
    ensures Efforts(runs + [r]) == Efforts(runs) + RunEffort(r.pc)
  {
    assert (runs + [r])[..|runs|] == runs;
  }

  lemma {:induction false} EffortsUpdate(runs: seq<Run>, i: nat, r: Run)
    requires i < |runs|
    ensures Efforts(runs[i := r]) + RunEffort(runs[i].pc) == Efforts(runs) + RunEffort(r.pc)
  {
    var n := |runs| - 1;
    if i == n {
      assert runs[i := r][..n] == runs[..n];
    } else {
      assert runs[i := r][..n] == runs[..n][i := r];
      EffortsUpdate(runs[..n], i, r);
    }
  }

  function ManagerEffort(m: ManagerPc): nat {
    if m.Looping? then LoopEffort(m.loop) else 0
  }

  function Waiters(qs: PerPhase<seq<Job>>): nat {
    |qs.init| + |qs.main| + |qs.cleanUp|
  }

  function Effort(s: System): nat {
    8 * Waiters(s.queues) + ManagerEffort(s.manager) + Efforts(s.runs)
  }

  /** The next step of a run that kicks no more and returns j, if that is its job, to the next cycle. */
  function Onward(s: System, k: nat, j: Job): Action
    requires k < |s.runs|
  {
    match s.runs[k].pc
    case Awaiting => Begin(k)
    case Running => Return(k, if s.runs[k].job == j then Requeue else Dispose)
    case KickErased(_) => KickOn(k, true)
    case KickPushed(_) => KickOn(k, true)
    case InLoop(_, _) => KickOn(k, true)
    case Returned(_) => Settle(k)
    case Requeueing => Settle(k)
    case _ => Finish(k)
  }

  lemma LoopLessEffort(s: System, p: Phase, l: Loop)
    requires !l.Exited?
    ensures var (s', l') := LoopStep(s, p, l, true);
      && 8 * Waiters(s'.queues) + Efforts(s'.runs) + LoopEffort(l')
         < 8 * Waiters(s.queues) + Efforts(s.runs) + LoopEffort(l)
      && s'.manager == s.manager && !l'.Deferring?
  {
    if l.Counted? { EffortsAppend(s.runs, Run(l.job, l.cycle, Awaiting)); }
    hide Efforts;
  }

  lemma AdvanceLessEffort(s: System, i: nat, pc: RunPc)
    requires i < |s.runs|
    ensures var s' := Advance(s, i, pc);
      Effort(s') + RunEffort(s.runs[i].pc) == Effort(s) + RunEffort(pc)
  {
    EffortsUpdate(s.runs, i, s.runs[i].(pc := pc));
    hide Efforts, RunEffort;
  }

  lemma LoopOnward(s: System, k: nat)
    requires k < |s.runs| && s.runs[k].pc.InLoop? && !s.runs[k].pc.loop.Exited?
    ensures var s' := KickOnStep(s, k, true); Effort(s') < Effort(s) && s'.manager == s.manager
  {
    var p, l := s.runs[k].pc.queue, s.runs[k].pc.loop;
    LoopLessEffort(s, p, l);
    var (s1, l') := LoopStep(s, p, l, true);
    LoopKeepsPcs(s, p, l, true);
    AdvanceLessEffort(s1, k, if l'.Exited? then Running else InLoop(p, l'));
    hide LoopStep, Efforts;
  }

  lemma KickOnward(s: System, k: nat)
    requires k < |s.runs| && (s.runs[k].pc.KickErased? || s.runs[k].pc.KickPushed?)
    ensures var s' := KickOnStep(s, k, true); Effort(s') < Effort(s) && s'.manager == s.manager
  {
    if s.runs[k].pc.KickErased? {
      AdvanceLessEffort(Push(s, s.runs[k].pc.job), k, KickPushed(s.runs[k].pc.job.phase));
    } else {
      var p := s.runs[k].pc.queue;
      AdvanceLessEffort(s, k, if s.state == CycleOf(p) then InLoop(p, Top) else Running);
    }
    hide Efforts;
  }

  lemma EffortFrame(s: System, s': System)
    requires s'.queues == s.queues && s'.manager == s.manager && s'.runs == s.runs
    ensures Effort(s') == Effort(s)
  {
  }

  lemma SettledRuns(s: System, k: nat)
    requires Enabled(s, Settle(k))
    ensures var s' := SettleStep(s, k); var s1 := Advance(s, k, s'.runs[k].pc);
      s'.queues == s1.queues && s'.manager == s1.manager && s'.runs == s1.runs
  {
  }

  lemma SettleOnward(s: System, k: nat)
    requires Enabled(s, Settle(k))
    ensures var s' := SettleStep(s, k); Effort(s') < Effort(s) && s'.manager == s.manager
  {
    hide Effort;
    var s' := SettleStep(s, k);
    AdvanceLessEffort(s, k, s'.runs[k].pc);
    SettledRuns(s, k);
    EffortFrame(Advance(s, k, s'.runs[k].pc), s');
  }

  lemma OnwardMoves(s: System, k: nat, j: Job)
    requires RunsOk(s) && k < |s.runs| && Live(s.runs[k])
    ensures var a := Onward(s, k, j);
      && Enabled(s, a) && !IsKick(a) && !a.Manage? && AllReady(a)
      && Effort(Step(s, a)) < Effort(s) && Step(s, a).manager == s.manager
  {
    assert RunOk(s, s.runs[k]);
    hide Efforts, RunOk, StateMatches;
    match s.runs[k].pc
    case InLoop(_, _) => LoopOnward(s, k); hide Effort, KickOnStep;
    case KickErased(_) => KickOnward(s, k); hide Effort, KickOnStep;
    case KickPushed(_) => KickOnward(s, k); hide Effort, KickOnStep;
    case Awaiting => AdvanceLessEffort(s, k, Running); hide Effort;
    case Running =>
      AdvanceLessEffort(s, k, Returned(if s.runs[k].job == j then Requeue else Dispose)); hide Effort;
    case Returned(_) => SettleOnward(s, k); hide Effort, SettleStep;
    case Requeueing => SettleOnward(s, k); hide Effort, SettleStep;
    case Finishing(o) => AdvanceLessEffort(s, k, Done(o));
    case Done(_) =>
  }

  lemma ManagerMoves(s: System)
    requires StateMatches(s) && s.manager.Looping?
    ensures Enabled(s, Manage(true))
    ensures var s' := Step(s, Manage(true));
      Effort(s') < Effort(s) && WorkingOn(s'.manager, s.manager.phase)
  {
    LoopLessEffort(s, s.manager.phase, s.manager.loop);
    hide LoopStep, Efforts;
  }

  // ---- Who moves next ----

  /** A run of j that is kept where it is, once it has stopped kicking. */
  predicate Stays(r: Run, j: Job, stay: bool) {
    stay && r.job == j && !Kicking(r.pc)
  }

  predicate Mover(s: System, k: nat, j: Job, stay: bool)
    requires k < |s.runs|
  {
    Live(s.runs[k]) && !Stays(s.runs[k], j, stay)
  }

  ghost predicate GetsOn(s: System, a: Action, j: Job, stay: bool) {
    && May(s, a) && Effort(Step(s, a)) < Effort(s)
    && (if s.manager.Looping? then a == Manage(true) && WorkingOn(Step(s, a).manager, s.manager.phase)
        else
          && Step(s, a).manager == s.manager
          && exists k :: 0 <= k < |s.runs| && a == Onward(s, k, j) && Mover(s, k, j, stay))
  }

  /** Whoever holds the mutexes first, then anybody. */
  lemma Choose(s: System, j: Job, stay: bool) returns (a: Action)
    requires Steady(s)
    requires s.manager.Looping? || exists k :: 0 <= k < |s.runs| && Mover(s, k, j, stay)
    ensures GetsOn(s, a, j, stay) && Steady(Step(s, a))
  {
    if s.manager.Looping? {
      a := Manage(true);
      ManagerMoves(s);
    } else {
      var k: nat;
      if i: nat :| i < |s.runs| && s.runs[i].pc.InLoop? {
        KickingIsLive(s, i);
        k := i;
      } else {
        k :| k < |s.runs| && Mover(s, k, j, stay);
      }
      a := Onward(s, k, j);
      OnwardMoves(s, k, j);
      OnwardIsFree(s, k, j);
    }
    StepKeepsSteady(s, a);
    hide Steady, Step, Effort, Enabled, LocksFree;
  }

  lemma OnwardIsFree(s: System, k: nat, j: Job)
    requires Steady(s) && !s.manager.Looping? && k < |s.runs| && Live(s.runs[k])
    requires s.runs[k].pc.InLoop? || !RunLoops(s)
    requires Enabled(s, Onward(s, k, j))
    ensures LocksFree(s, Onward(s, k, j))
  {
    assert RunOk(s, s.runs[k]);
    hide Stands, NoOrphans, Exclusive;
  }
}
