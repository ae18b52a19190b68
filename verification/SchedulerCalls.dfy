/** What the calls of the job system come to in the machine when nobody interferes: the runner of a scheduled job,
    and KickJob called by a running job. */
module SchedulerCalls {
  import opened JobModel
  import opened Scheduler
  import opened JobManagers

  ghost predicate Comes(s: System, t: System) {
    exists acts :: Valid(s, acts) && Last(s, acts) == t
  }

  lemma IsThere(s: System)
    ensures Comes(s, s)
  {
    var none: seq<Action> := [];
    assert Valid(s, none) && Last(s, none) == s;
  }

  lemma ComesVia(s: System, a: Action, t: System)
    requires Enabled(s, a) && Comes(Step(s, a), t)
    ensures Comes(s, t)
  {
    var rest :| Valid(Step(s, a), rest) && Last(Step(s, a), rest) == t;
    var acts := [a] + rest;
    assert acts[1..] == rest;
    hide Step, Enabled;
    assert Valid(s, acts) && Last(s, acts) == t;
  }

  // ---- The runner: execute, maybe requeue, finish ----

  /** How a run ends whose workload returns this continuation. */
  function Ending(s: System, j: Job, c: Continuation): Outcome {
    if c.Dispose? then Disposed else if j.id in s.blacklist then Intercepted else Requeued
  }

  /** The state after the run: a job that asked to be requeued and is not blacklisted waits at the end of the
      next-cycle queue, any other is gone, and in both cases the job's counter entries are taken off. */
  function Ran(s: System, i: nat, c: Continuation): System
    requires i < |s.runs|
  {
    var r := s.runs[i];
    var o := Ending(s, r.job, c);
    var lowered := PerPhase(s.counts.init - s.held.init[r.job], s.counts.main - s.held.main[r.job],
                            s.counts.cleanUp - s.held.cleanUp[r.job]);
    s.(runs := s.runs[i := Run(r.job, r.cycle, Done(o))],
       next := if o.Requeued? then s.next + [r.job] else s.next,
       gone := if o.Requeued? then s.gone else s.gone + multiset{r.job},
       counts := lowered,
       held := PerPhase(s.held.init[r.job := 0], s.held.main[r.job := 0], s.held.cleanUp[r.job := 0]))
  }

  /** The run once its workload has returned. */
  lemma ReturnedRuns(s: System, i: nat, c: Continuation, end: System)
    requires i < |s.runs| && s.runs[i].pc.Awaiting? && Comes(Advance(s, i, Returned(c)), end)
    ensures Comes(s, end)
  {
    var s1 := Step(s, Begin(i));
    assert Step(s1, Return(i, c)) == Advance(s, i, Returned(c));
    hide Comes, Step;
    ComesVia(s1, Return(i, c), end);
    ComesVia(s, Begin(i), end);
  }

  lemma RequeuedRuns(s: System, i: nat)
    requires i < |s.runs| && Ending(s, s.runs[i].job, Requeue).Requeued?
    ensures Comes(Advance(s, i, Returned(Requeue)), Ran(s, i, Requeue))
  {
    var s1 := Advance(s, i, Returned(Requeue));
    var s2 := Step(s1, Settle(i));
    var s3 := Step(s2, Settle(i));
    assert Step(s3, Finish(i)) == Ran(s, i, Requeue);
    hide Comes, Step, Ran;
    Finishes(s3, i);
    ComesVia(s2, Settle(i), Ran(s, i, Requeue));
    ComesVia(s1, Settle(i), Ran(s, i, Requeue));
  }

  lemma GoneRuns(s: System, i: nat, c: Continuation)
    requires i < |s.runs| && !Ending(s, s.runs[i].job, c).Requeued?
    ensures Comes(Advance(s, i, Returned(c)), Ran(s, i, c))
  {
    var s1 := Advance(s, i, Returned(c));
    var s2 := Step(s1, Settle(i));
    assert Step(s2, Finish(i)) == Ran(s, i, c);
    hide Comes, Step, Ran;
    Finishes(s2, i);
    ComesVia(s1, Settle(i), Ran(s, i, c));
  }

  lemma RunnerAlone(s: System, i: nat, c: Continuation)
    requires i < |s.runs| && s.runs[i].pc.Awaiting?
    ensures Comes(s, Ran(s, i, c))
  {
    if Ending(s, s.runs[i].job, c).Requeued? { RequeuedRuns(s, i); } else { GoneRuns(s, i, c); }
    hide Comes, Ran;
    ReturnedRuns(s, i, c, Ran(s, i, c));
  }

  lemma Finishes(s: System, i: nat)
    requires Enabled(s, Finish(i))
    ensures Comes(s, Step(s, Finish(i)))
  {
    IsThere(Step(s, Finish(i)));
    hide Step;
    ComesVia(s, Finish(i), Step(s, Finish(i)));
  }

  // ---- KickJob ----

  /** The run that a scheduling section adds. */
  function Added(l: Loop): seq<Run> {
    if l.Counted? then [Run(l.job, l.cycle, Awaiting)] else []
  }

  lemma LoopAdds(t: System, p: Phase, l: Loop, ready: bool)
    requires !l.Exited?
    ensures LoopStep(t, p, l, ready).0.runs == t.runs + Added(l)
  {
    assert t.runs + [] == t.runs;
  }

  /** A scheduling section does not look at the runs there are. */
  lemma LoopIgnoresRuns(t: System, runs: seq<Run>, p: Phase, l: Loop, ready: bool)
    requires !l.Exited?
    ensures LoopStep(t.(runs := runs), p, l, ready)
         == (LoopStep(t, p, l, ready).0.(runs := runs + Added(l)), LoopStep(t, p, l, ready).1)
  {
    assert runs + [] == runs;
  }

  /** The scheduling sections of a run's kick are those of anybody, beside the run itself. */
  lemma LoopBesideRun(t: System, i: nat, p: Phase, l: Loop, ready: bool)
    requires i < |t.runs| && !l.Exited?
    ensures i < |LoopStep(t, p, l, ready).0.runs|
    ensures KickOnStep(Advance(t, i, InLoop(p, l)), i, ready)
         == Advance(LoopStep(t, p, l, ready).0, i,
                    if LoopStep(t, p, l, ready).1.Exited? then Running else InLoop(p, LoopStep(t, p, l, ready).1))
  {
    var looping := t.runs[i := t.runs[i].(pc := InLoop(p, l))];
    LoopAdds(t, p, l, ready);
    LoopIgnoresRuns(t, looping, p, l, ready);
    var (t', l') := LoopStep(t, p, l, ready);
    var pc := if l'.Exited? then Running else InLoop(p, l');
    var r := t.runs[i].(pc := pc);
    assert (looping + Added(l))[i := r] == (t.runs + Added(l))[i := r];
    hide LoopStep, Added;
  }

  lemma LoopGoesOn(t: System, i: nat, p: Phase, l: Loop, ready: bool, end: System)
    requires i < |t.runs| && !l.Exited?
    requires var (t', l') := LoopStep(t, p, l, ready);
      i < |t'.runs| && Comes(Advance(t', i, if l'.Exited? then Running else InLoop(p, l')), end)
    ensures Comes(Advance(t, i, InLoop(p, l)), end)
  {
    LoopBesideRun(t, i, p, l, ready);
    var s := Advance(t, i, InLoop(p, l));
    assert Enabled(s, KickOn(i, ready)) && Step(s, KickOn(i, ready)) == KickOnStep(s, i, ready);
    hide LoopStep, KickOnStep, Comes, Step, Enabled;
    ComesVia(s, KickOn(i, ready), end);
  }

  lemma HandleKeepsRun(t: System, i: nat, p: Phase, ready: bool)
    requires i < |t.runs| && t.queues.At(p) != []
    ensures i < |HandleFirst(t, p, ready).runs|
  {
    HandleFirstEffect(t, p, ready);
    hide HandleFirst;
  }

  /** Handling the first job takes two or three sections. */
  lemma FirstComes(t: System, i: nat, p: Phase, ready: bool, end: System)
    requires i < |t.runs| && t.queues.At(p) != [] && i < |HandleFirst(t, p, ready).runs|
    requires Comes(Advance(HandleFirst(t, p, ready), i, InLoop(p, Top)), end)
    ensures Comes(Advance(t, i, InLoop(p, Top)), end)
  {
    var (t1, l1) := LoopStep(t, p, Top, true);
    var (t2, l2) := LoopStep(t1, p, l1, ready);
    LoopKeepsPcs(t, p, Top, true);
    LoopKeepsPcs(t1, p, l1, ready);
    assert l1.Popped? && !l2.Exited?;
    if !l2.Top? {
      assert LoopStep(t2, p, l2, true).1 == Top;
      hide Comes;
      LoopGoesOn(t2, i, p, l2, true, end);
    }
    hide Comes, LoopStep;
    LoopGoesOn(t1, i, p, l1, ready, end);
    LoopGoesOn(t, i, p, Top, true, end);
  }

  lemma {:induction false} LoopAlone(t: System, i: nat, p: Phase, answer: nat -> bool, n: nat)
    requires i < |t.runs|
    ensures i < |Undisturbed(t, p, answer, n).runs|
    ensures Comes(Advance(t, i, InLoop(p, Top)), Advance(Undisturbed(t, p, answer, n), i, Running))
    decreases |t.queues.At(p)|
  {
    if t.queues.At(p) == [] {
      IsThere(Advance(t, i, Running));
      assert LoopStep(t, p, Top, true) == (t, Exited);
      LoopGoesOn(t, i, p, Top, true, Advance(t, i, Running));
    } else {
      var t' := HandleFirst(t, p, answer(n));
      HandleFirstEffect(t, p, answer(n));
      HandleKeepsRun(t, i, p, answer(n));
      assert |t'.queues.At(p)| < |t.queues.At(p)|;
      hide HandleFirst, Comes, Advance;
      LoopAlone(t', i, p, answer, n + 1);
      FirstComes(t, i, p, answer(n), Advance(Undisturbed(t, p, answer, n), i, Running));
    }
  }

  /** What KickJob does to the rest of the system: the id leaves the blacklist and the job is queued; if its phase is
      running, the whole queue is offered at once. */
  function Kicked(s: System, j: Job, answer: nat -> bool, n: nat): System {
    var s1 := Push(s.(blacklist := s.blacklist - {j.id}, kicked := s.kicked + multiset{j}), j);
    if s.state == CycleOf(j.phase) then Undisturbed(s1, j.phase, answer, n) else s1
  }

  lemma KickAlone(s: System, i: nat, j: Job, answer: nat -> bool, n: nat)
    requires i < |s.runs| && s.runs[i].pc.Running?
    ensures i < |Kicked(s, j, answer, n).runs|
    ensures Comes(s, Advance(Kicked(s, j, answer, n), i, Running))
  {
    var p := j.phase;
    var base := Push(s.(blacklist := s.blacklist - {j.id}, kicked := s.kicked + multiset{j}), j);
    var s1 := Step(s, Kick(i, j));
    var s2 := Step(s1, KickOn(i, true));
    var s3 := Step(s2, KickOn(i, true));
    var end: System;
    if s.state == CycleOf(p) {
      LoopAlone(base, i, p, answer, n);
      end := Advance(Undisturbed(base, p, answer, n), i, Running);
      assert s3 == Advance(base, i, InLoop(p, Top));
    } else {
      end := Advance(base, i, Running);
      assert s3 == end;
      IsThere(end);
    }
    hide Comes, Undisturbed;
    ComesVia(s2, KickOn(i, true), end);
    ComesVia(s1, KickOn(i, true), end);
    ComesVia(s, Kick(i, j), end);
  }
}
