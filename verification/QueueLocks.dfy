/** The mutexes that a scheduling pass holds across several of its sections. The machine does not enforce them;
    here is which of its runs respect them, and what they then keep. */
module QueueLocks {
  import opened JobModel
  import opened Scheduler

  /** A run that kicks holds the state mutex, and the mutex of the queue, while it schedules. */
  predicate RunLoops(s: System) {
    exists i :: 0 <= i < |s.runs| && s.runs[i].pc.InLoop?
  }

  predicate RunLoopsOver(s: System, p: Phase) {
    exists i :: 0 <= i < |s.runs| && s.runs[i].pc.InLoop? && s.runs[i].pc.queue == p
  }

  predicate ManagerLoopsOver(s: System, p: Phase) {
    s.manager.Looping? && s.manager.phase == p
  }

  /** Nobody holds the mutex of the queue of phase p. */
  predicate QueueFree(s: System, p: Phase) {
    !RunLoopsOver(s, p) && !ManagerLoopsOver(s, p)
  }

  /** The mutexes that the section needs, and does not hold already, are free. The drain holds the mutex of the
      next-cycle queue. */
  predicate LocksFree(s: System, a: Action)
    requires Enabled(s, a)
  {
    match a
    case Manage(_) =>
      (match s.manager
       case DrainErased(j) => QueueFree(s, j.phase) && !RunLoops(s)
       case Beginning => !RunLoops(s)
       case Checking(p) => QueueFree(s, p)
       case Leaving(_) => !RunLoops(s)
       case _ => true)
    case KickOn(i, _) =>
      (match s.runs[i].pc
       case KickErased(j) => QueueFree(s, j.phase)
       case KickPushed(p) => !RunLoops(s) && (s.state == CycleOf(p) ==> QueueFree(s, p))
       case InLoop(_, Deferring(_)) => !Drains(s.manager)
       case _ => true)
    case Settle(i) => s.runs[i].pc.Requeueing? ==> !Drains(s.manager)
    case KickOutside(j) => QueueFree(s, j.phase) && !RunLoops(s)
    case DetachSweepNext(_) => !Drains(s.manager)
    case DetachSweep(p, _) => QueueFree(s, p)
    case _ => true
  }

  predicate OnlyLooping(s: System, i: nat)
    requires i < |s.runs|
  {
    s.runs[i].pc.InLoop? ==>
      && !ManagerLoopsOver(s, s.runs[i].pc.queue)
      && forall k :: 0 <= k < |s.runs| && k != i ==> !s.runs[k].pc.InLoop?
  }

  /** At most one run schedules, and not a queue that the manager schedules. */
  predicate Exclusive(s: System) {
    forall i :: 0 <= i < |s.runs| ==> OnlyLooping(s, i)
  }

  lemma ManageKeepsExclusive(s: System, ready: bool)
    requires Exclusive(s) && ManageEnabled(s) && LocksFree(s, Manage(ready))
    ensures Exclusive(ManageStep(s, ready))
  {
    var s' := ManageStep(s, ready);
    if s.manager.Looping? { LoopKeepsPcs(s, s.manager.phase, s.manager.loop, ready); }
    hide LoopStep;
    forall i | 0 <= i < |s'.runs| ensures OnlyLooping(s', i) {
      if i < |s.runs| { assert OnlyLooping(s, i); }
    }
  }

  lemma KickOnKeepsExclusive(s: System, i: nat, ready: bool)
    requires Exclusive(s) && Enabled(s, KickOn(i, ready)) && LocksFree(s, KickOn(i, ready))
    ensures Exclusive(KickOnStep(s, i, ready))
  {
    var s' := KickOnStep(s, i, ready);
    if s.runs[i].pc.InLoop? { LoopKeepsPcs(s, s.runs[i].pc.queue, s.runs[i].pc.loop, ready); }
    hide LoopStep;
    assert OnlyLooping(s, i);
    forall k | 0 <= k < |s'.runs| ensures OnlyLooping(s', k) {
      if k < |s.runs| { assert OnlyLooping(s, k); }
    }
  }

  predicate LoopsAlike(r: Run, r': Run) {
    r'.pc == r.pc || (!r'.pc.InLoop? && !r.pc.InLoop?)
  }

  lemma OthersLoopAsBefore(s: System, a: Action)
    requires Enabled(s, a) && !a.Manage? && !a.KickOn?
    ensures var s' := Step(s, a);
      && s'.manager == s.manager && |s'.runs| == |s.runs|
      && forall k :: 0 <= k < |s.runs| ==> LoopsAlike(s.runs[k], s'.runs[k])
  {
    var s' := Step(s, a);
    assert s'.manager == s.manager && |s'.runs| == |s.runs|;
    forall k | 0 <= k < |s.runs| ensures LoopsAlike(s.runs[k], s'.runs[k]) {
      if !ActsOn(a, k) { LeavesRunAlone(s, a, k); }
    }
    hide Without, Only;
  }

  /** The mutexes do exclude what they are there to exclude. */
  lemma StepKeepsExclusive(s: System, a: Action)
    requires Exclusive(s) && Enabled(s, a) && LocksFree(s, a)
    ensures Exclusive(Step(s, a))
  {
    if a.Manage? {
      ManageKeepsExclusive(s, a.ready);
    } else if a.KickOn? {
      KickOnKeepsExclusive(s, a.run, a.ready);
    } else {
      var s' := Step(s, a);
      OthersLoopAsBefore(s, a);
      hide Step;
      forall k | 0 <= k < |s'.runs| ensures OnlyLooping(s', k) {
        assert OnlyLooping(s, k);
      }
    }
  }

  ghost predicate Disciplined(s: System, acts: seq<Action>)
    requires Valid(s, acts)
    decreases |acts|
  {
    acts == [] || (LocksFree(s, acts[0]) && Disciplined(Step(s, acts[0]), acts[1..]))
  }
}
