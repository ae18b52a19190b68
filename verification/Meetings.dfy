/** Two copies of a synchronous job in hand in its phase: both runs come to the counter together, and the first to
    finish takes both entries off. */
module Meetings {
  import opened JobModel
  import opened Scheduler
  import opened JobConservation
  import opened PhaseCounters
  import opened PhaseBarrier
  import opened FreshKicks
  import opened QueueLocks
  import opened Continuations

  predicate NobodyDefers(s: System, j: Job) {
    && !(s.manager.Looping? && s.manager.loop == Deferring(j))
    && forall i :: 0 <= i < |s.runs| && s.runs[i].pc.InLoop? ==> s.runs[i].pc.loop != Deferring(j)
  }

  ghost predicate Meeting(s: System, j: Job) {
    Steady(s) && WorkingOn(s.manager, j.phase) && !j.async && Work(s, j) >= 2 && NobodyDefers(s, j)
  }

  lemma LoopDefersNot(s: System, p: Phase, l: Loop, j: Job)
    requires !l.Exited?
    ensures var (s', l') := LoopStep(s, p, l, true); l' != Deferring(j)
  {
  }

  lemma ManagerChangesWork(s: System, m: ManagerPc, j: Job)
    ensures Work(s.(manager := m), j) + CarriedByManager(s.manager, j) == Work(s, j) + CarriedByManager(m, j)
  {
    hide Total, Queued, CarriedByManager;
  }

  lemma ManageKeepsWork(s: System, j: Job)
    requires s.manager.Looping? && !s.manager.loop.Exited? && s.manager.loop != Deferring(j) && !j.async
    ensures Work(ManageStep(s, true), j) == Work(s, j)
  {
    var p, l := s.manager.phase, s.manager.loop;
    var (s1, l') := LoopStep(s, p, l, true);
    LoopWorkAll(s, p, l, true, j);
    LoopKeepsPcs(s, p, l, true);
    ManagerChangesWork(s1, if l'.Exited? then Waiting(p) else Looping(p, l'), j);
    hide Work, LoopStep;
  }

  lemma ManageDefersNot(s: System, j: Job)
    requires NobodyDefers(s, j) && s.manager.Looping? && !s.manager.loop.Exited?
    ensures NobodyDefers(ManageStep(s, true), j)
  {
    LoopDefersNot(s, s.manager.phase, s.manager.loop, j);
    LoopKeepsPcs(s, s.manager.phase, s.manager.loop, true);
    hide LoopStep;
  }

  lemma ManageKeepsMeeting(s: System, j: Job)
    requires Meeting(s, j) && s.manager.Looping?
    ensures Enabled(s, Manage(true))
    ensures var s' := Step(s, Manage(true)); Work(s', j) >= 2 && NobodyDefers(s', j)
  {
    var l := s.manager.loop;
    assert !l.Exited?;
    hide Work, LoopStep, Steady;
    ManageKeepsWork(s, j);
    ManageDefersNot(s, j);
    hide ManageStep, NobodyDefers;
  }

  lemma KickStartKeepsMeeting(s: System, k: nat, j: Job)
    requires Meeting(s, j) && k < |s.runs| && (s.runs[k].pc.KickErased? || s.runs[k].pc.KickPushed?)
    ensures var s' := KickOnStep(s, k, true); Work(s', j) >= 2 && NobodyDefers(s', j)
  {
    if s.runs[k].pc.KickErased? {
      KickPushWork(s, k, s.runs[k].pc.job, j);
    } else {
      var p := s.runs[k].pc.queue;
      AdvanceWork(s, k, if s.state == CycleOf(p) then InLoop(p, Top) else Running, j);
    }
    hide Work, Steady;
  }

  lemma KickLoopKeepsMeeting(s: System, k: nat, j: Job)
    requires Meeting(s, j) && k < |s.runs| && s.runs[k].pc.InLoop? && !s.runs[k].pc.loop.Exited?
    ensures var s' := KickOnStep(s, k, true); Work(s', j) >= 2 && NobodyDefers(s', j)
  {
    var p, l := s.runs[k].pc.queue, s.runs[k].pc.loop;
    assert !l.Deferring? || Carried(l, j) == 0;
    KickLoopWork(s, k, true, j);
    LoopDefersNot(s, p, l, j);
    LoopKeepsPcs(s, p, l, true);
    hide Work, Steady, LoopStep, Carried;
  }

  lemma KickOnKeepsMeeting(s: System, k: nat, j: Job)
    requires Meeting(s, j) && k < |s.runs| && Enabled(s, KickOn(k, true))
    ensures var s' := Step(s, KickOn(k, true)); Work(s', j) >= 2 && NobodyDefers(s', j)
  {
    if s.runs[k].pc.InLoop? { KickLoopKeepsMeeting(s, k, j); } else { KickStartKeepsMeeting(s, k, j); }
    hide Work, Meeting, NobodyDefers, KickOnStep;
  }

  lemma OtherKeepsMeeting(s: System, k: nat, j: Job)
    requires Meeting(s, j) && k < |s.runs| && Live(s.runs[k]) && !Kicking(s.runs[k].pc) && s.runs[k].job != j
    requires Enabled(s, Onward(s, k, j))
    ensures var s' := Step(s, Onward(s, k, j)); Work(s', j) >= 2 && NobodyDefers(s', j)
  {
    var s' := Step(s, Onward(s, k, j));
    var s1 := Advance(s, k, s'.runs[k].pc);
    AdvanceWork(s, k, s'.runs[k].pc, j);
    WorkFrame(s1, s', j);
    hide Work, Steady;
  }

  lemma MoveKeepsMeeting(s: System, a: Action, j: Job)
    requires Meeting(s, j) && GetsOn(s, a, j, true) && Steady(Step(s, a))
    ensures Meeting(Step(s, a), j)
  {
    hide Effort, LocksFree;
    if s.manager.Looping? {
      ManageKeepsMeeting(s, j);
    } else {
      var k :| 0 <= k < |s.runs| && a == Onward(s, k, j) && Mover(s, k, j, true);
      if Kicking(s.runs[k].pc) {
        KickOnKeepsMeeting(s, k, j);
      } else {
        OtherKeepsMeeting(s, k, j);
      }
    }
    hide Step, Work, Steady, NobodyDefers;
  }

  /** Two runs of weight one. */
  lemma {:induction false} TwoWeights(w: Weight, runs: seq<Run>) returns (i: nat, k: nat)
    requires Total(w, runs) >= 2 && forall n :: 0 <= n < |runs| ==> At(w, runs[n]) <= 1
    ensures i < k < |runs| && At(w, runs[i]) == 1 && At(w, runs[k]) == 1
  {
    var n := |runs| - 1;
    if At(w, runs[n]) == 1 {
      i := SomeWeight(w, runs[..n]);
      k := n;
    } else {
      i, k := TwoWeights(w, runs[..n]);
    }
  }

  lemma {:induction false} SomeWeight(w: Weight, runs: seq<Run>) returns (i: nat)
    requires Total(w, runs) > 0
    ensures i < |runs| && At(w, runs[i]) > 0
  {
    var n := |runs| - 1;
    if At(w, runs[n]) > 0 {
      i := n;
    } else {
      i := SomeWeight(w, runs[..n]);
    }
  }

  /** When all runs of other jobs have ended, the counter stands for runs of j only. */
  lemma OthersDoneOnlyHeld(s: System, p: Phase, j: Job)
    requires Steady(s) && s.manager == Waiting(p)
    requires forall k :: 0 <= k < |s.runs| && Live(s.runs[k]) ==> s.runs[k].job == j && !Kicking(s.runs[k].pc)
    ensures OnlyHeld(s, p, j)
  {
    forall x: Job | x != j ensures s.held.At(p)[x] == 0 {
      var w := Attached(x, p, s.cycle);
      forall k | 0 <= k < |s.runs| ensures At(w, s.runs[k]) == 0 {
        assert RunOk(s, s.runs[k]);
      }
      TotalZero(w, s.runs);
      assert Gap(s, p, x) <= 0;
    }
  }

  /** Nobody kicks any more, so the queue has been served and both copies are runs. */
  lemma MetRuns(s: System, j: Job) returns (i: nat, k: nat)
    requires Meeting(s, j) && s.manager.Waiting?
    requires forall k :: 0 <= k < |s.runs| && Live(s.runs[k]) ==> s.runs[k].job == j && !Kicking(s.runs[k].pc)
    ensures i < k < |s.runs| && s.runs[i].job == j && s.runs[k].job == j && Live(s.runs[i]) && Live(s.runs[k])
  {
    var p := j.phase;
    forall n | 0 <= n < |s.runs| ensures !Serving(s.runs[n], p) && At(Unfinished(j), s.runs[n]) <= 1 {
      assert RunOk(s, s.runs[n]);
    }
    assert s.queues.At(p) == [];
    QueuedInItsPhase(s, j);
    assert Times(s.queues.At(p), j) == 0;
    hide Total, Queued;
    i, k := TwoWeights(Unfinished(j), s.runs);
    assert RunOk(s, s.runs[i]) && RunOk(s, s.runs[k]);
  }

  lemma {:induction false} MeetingBreaks(s: System, j: Job)
    requires Meeting(s, j)
    ensures Breaks(s, true)
    decreases Effort(s)
  {
    if s.manager.Looping? || exists k :: 0 <= k < |s.runs| && Mover(s, k, j, true) {
      var a := Choose(s, j, true);
      MoveKeepsMeeting(s, a, j);
      hide Step, Meeting, Effort, May;
      MeetingBreaks(Step(s, a), j);
      Then(s, a);
    } else {
      assert forall k :: 0 <= k < |s.runs| && Live(s.runs[k]) ==> !Mover(s, k, j, true);
      var i, k := MetRuns(s, j);
      OthersDoneOnlyHeld(s, j.phase, j);
      TwinsBreak(s, j.phase, i, k, j);
    }
  }
}
