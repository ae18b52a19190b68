/** Why a detach holds only as long as no run outlives the blacklist. */
module DetachLimits {
  import opened JobModel
  import opened Scheduler
  import opened JobLifecycle
  import opened QueueLocks
  import opened Continuations

  predicate LoopsGoOn(s: System) {
    forall i :: 0 <= i < |s.runs| && s.runs[i].pc.InLoop? ==> !s.runs[i].pc.loop.Exited?
  }

  /** Without another kick of it, the id comes back to the next-cycle queue. */
  ghost predicate Returns(s: System, id: string) {
    exists acts :: Valid(s, acts) && KickNever(acts, id) && !Lacks(Last(s, acts).next, id)
  }

  lemma ReturnsLater(s: System, a: Action, id: string)
    requires Enabled(s, a) && KicksOthers(a, id) && Returns(Step(s, a), id)
    ensures Returns(s, id)
  {
    var rest :| Valid(Step(s, a), rest) && KickNever(rest, id) && !Lacks(Last(Step(s, a), rest).next, id);
    var acts := [a] + rest;
    assert acts[1..] == rest;
    assert Valid(s, acts) && Last(s, acts) == Last(Step(s, a), rest);
    assert KickNever(acts, id);
  }

  lemma RequeueReturns(s: System, i: nat, id: string)
    requires i < |s.runs| && s.runs[i].job.id == id && id !in s.blacklist && s.runs[i].pc == Returned(Requeue)
    ensures Returns(s, id)
  {
    var s1 := Step(s, Settle(i));
    var s2 := Step(s1, Settle(i));
    assert s2.next[|s2.next| - 1] == s.runs[i].job;
    assert Valid(s2, []) && KickNever([], id) && !Lacks(Last(s2, []).next, id);
    hide Step, Returns;
    ReturnsLater(s1, Settle(i), id);
    ReturnsLater(s, Settle(i), id);
  }

  /** The run goes on, and may still ask to be requeued. */
  lemma OnwardMayRequeue(s: System, i: nat)
    requires i < |s.runs| && MayRequeue(s.runs[i].pc) && s.runs[i].pc != Returned(Requeue)
    requires s.runs[i].pc.InLoop? ==> !s.runs[i].pc.loop.Exited?
    ensures var a := Onward(s, i, s.runs[i].job);
      && Enabled(s, a) && !IsKick(a)
      && var s' := Step(s, a);
         && Effort(s') < Effort(s) && s'.blacklist == s.blacklist
         && i < |s'.runs| && s'.runs[i].job == s.runs[i].job && MayRequeue(s'.runs[i].pc)
         && (s'.runs[i].pc.InLoop? ==> !s'.runs[i].pc.loop.Exited?)
  {
    hide Effort;
    match s.runs[i].pc
    case Awaiting => AdvanceLessEffort(s, i, Running);
    case Running => AdvanceLessEffort(s, i, Returned(Requeue));
    case InLoop(_, _) => LoopOnward(s, i);
    case KickErased(_) => KickOnward(s, i);
    case KickPushed(_) => KickOnward(s, i);
    case _ =>
  }

  /** With its id off the blacklist, a run that may still ask to be requeued can be. */
  lemma {:induction false} EscapedReturns(s: System, i: nat, id: string)
    requires i < |s.runs| && s.runs[i].job.id == id && id !in s.blacklist && MayRequeue(s.runs[i].pc)
    requires s.runs[i].pc.InLoop? ==> !s.runs[i].pc.loop.Exited?
    ensures Returns(s, id)
    decreases Effort(s)
  {
    if s.runs[i].pc == Returned(Requeue) {
      RequeueReturns(s, i, id);
    } else {
      var a := Onward(s, i, s.runs[i].job);
      OnwardMayRequeue(s, i);
      hide Step, Effort, MayRequeue, Returns;
      EscapedReturns(Step(s, a), i, id);
      ReturnsLater(s, a, id);
    }
  }

  /** Detached, and no run may ask any more. */
  predicate Spent(s: System, id: string) {
    Detached(s, id) && forall i :: 0 <= i < |s.runs| && s.runs[i].job.id == id ==> !MayRequeue(s.runs[i].pc)
  }

  lemma NeverAgain(s: System, a: Action, i: nat)
    requires Enabled(s, a) && i < |s.runs| && !MayRequeue(s.runs[i].pc)
    ensures i < |Step(s, a).runs| && !MayRequeue(Step(s, a).runs[i].pc)
  {
    if ActsOn(a, i) {
      assert a.Settle? || a.Finish?;
      hide ManageStep, KickOnStep, Without, Only;
    } else {
      LeavesRunAlone(s, a, i);
      hide Step;
    }
  }

  lemma SpentStays(s: System, a: Action, id: string)
    requires Spent(s, id) && Enabled(s, a) && KicksOthers(a, id)
    ensures Spent(Step(s, a), id)
  {
    var s' := Step(s, a);
    StepStaysDetached(s, id, a);
    StepNoNewRun(s, id, a);
    forall i | 0 <= i < |s'.runs| && s'.runs[i].job.id == id ensures !MayRequeue(s'.runs[i].pc) {
      NeverAgain(s, a, i);
    }
    hide Step, Detached;
  }

  lemma {:induction false} SpentNeverReturns(s: System, acts: seq<Action>, id: string)
    requires Spent(s, id) && Valid(s, acts) && KickNever(acts, id)
    ensures Lacks(Last(s, acts).next, id)
    decreases |acts|
  {
    if acts == [] {
    } else {
      assert KicksOthers(acts[0], id);
      SpentStays(s, acts[0], id);
      hide Step, Spent;
      SpentNeverReturns(Step(s, acts[0]), acts[1..], id);
    }
  }

  /** When the blacklist is cleared, a detached id stays away for good, whatever happens short of another kick of
      it, if and only if no run of it may still ask to be requeued. */
  lemma ClearingIsSafeIff(s: System, id: string, a: Action)
    requires Detached(s, id) && LoopsGoOn(s) && Enabled(s, a) && Clears(s, a)
    ensures ClearsLate(s, a, id) <==> !Returns(Step(s, a), id)
  {
    var s' := Step(s, a);
    assert s'.runs == s.runs && s'.blacklist == {};
    if ClearsLate(s, a, id) {
      StepStaysDetached(s, id, a);
      assert Spent(s', id);
      forall acts | Valid(s', acts) && KickNever(acts, id) ensures Lacks(Last(s', acts).next, id) {
        SpentNeverReturns(s', acts, id);
      }
    } else {
      var i :| 0 <= i < |s.runs| && s.runs[i].job.id == id && MayRequeue(s.runs[i].pc);
      EscapedReturns(s', i, id);
    }
  }

  lemma ManagerKeepsLoops(s: System, ready: bool)
    requires LoopsGoOn(s) && ManageEnabled(s)
    ensures LoopsGoOn(ManageStep(s, ready))
  {
    if s.manager.Looping? { LoopKeepsPcs(s, s.manager.phase, s.manager.loop, ready); }
    hide LoopStep;
  }

  lemma KickOnKeepsLoops(s: System, i: nat, ready: bool)
    requires LoopsGoOn(s) && Enabled(s, KickOn(i, ready))
    ensures LoopsGoOn(KickOnStep(s, i, ready))
  {
    if s.runs[i].pc.InLoop? { LoopKeepsPcs(s, s.runs[i].pc.queue, s.runs[i].pc.loop, ready); }
    hide LoopStep;
  }

  /** The machine's loops do go on. */
  lemma StepKeepsLoops(s: System, a: Action)
    requires LoopsGoOn(s) && Enabled(s, a)
    ensures LoopsGoOn(Step(s, a))
  {
    if a.Manage? {
      ManagerKeepsLoops(s, a.ready);
    } else if a.KickOn? {
      KickOnKeepsLoops(s, a.run, a.ready);
    } else {
      hide Without, Only;
    }
  }
}
