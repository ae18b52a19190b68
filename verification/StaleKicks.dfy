/** What happens after a synchronous job object is kicked while the job system still holds it: the run can
    go on, without any further kick, with every job ready and all mutexes respected, to a phase that is left with
    a live run. So kicking only jobs that are not held is not just enough for the phase barrier but needed. */
module StaleKicks {
  import opened JobModel
  import opened Scheduler
  import opened JobConservation
  import opened PhaseCounters
  import opened PhaseBarrier
  import opened FreshKicks
  import opened QueueLocks
  import opened Continuations
  import opened Meetings

  // ---- Two copies somewhere: the next cycle brings them together ----

  /** Two copies of j, neither of which will be disposed of or intercepted on its own. */
  ghost predicate Kept(s: System, j: Job) {
    && !j.async && Places(s, j) >= 2 && j.id !in s.blacklist
    && forall i :: 0 <= i < |s.runs| && s.runs[i].job == j ==> s.runs[i].pc != Returned(Dispose)
  }

  /** Steps of the manager, and of runs that find nothing ready and return j to the next cycle. */
  predicate Keeping(s: System, a: Action, j: Job)
    requires Enabled(s, a)
  {
    match a
    case Manage(_) => true
    case Begin(_) => true
    case KickOn(_, _) => true
    case Return(k, c) => s.runs[k].job == j ==> c.Requeue?
    case Settle(_) => true
    case Finish(_) => true
    case _ => false
  }

  lemma LoopKeepsBooks(s: System, p: Phase, l: Loop, ready: bool, j: Job)
    requires !l.Exited? && j.id !in s.blacklist
    ensures var s' := LoopStep(s, p, l, ready).0;
      && s'.kicked == s.kicked && s'.swept == s.swept && s'.gone[j] == s.gone[j] && s'.blacklist == s.blacklist
      && |s.runs| <= |s'.runs| && s'.runs[..|s.runs|] == s.runs
      && forall i :: |s.runs| <= i < |s'.runs| ==> s'.runs[i].pc.Awaiting?
  {
  }

  ghost predicate BooksKept(s: System, s': System, j: Job) {
    && s'.kicked == s.kicked && s'.swept == s.swept && s'.gone[j] == s.gone[j] && j.id !in s'.blacklist
    && forall i :: 0 <= i < |s'.runs| && s'.runs[i].job == j ==> s'.runs[i].pc != Returned(Dispose)
  }

  lemma LoopsKeepBooks(s: System, a: Action, j: Job)
    requires Kept(s, j) && Enabled(s, a)
    requires (a.Manage? && s.manager.Looping?) || (a.KickOn? && s.runs[a.run].pc.InLoop?)
    ensures BooksKept(s, Step(s, a), j)
  {
    hide LoopStep, Places;
    if a.Manage? {
      LoopKeepsBooks(s, s.manager.phase, s.manager.loop, a.ready, j);
      var s1 := LoopStep(s, s.manager.phase, s.manager.loop, a.ready).0;
      assert forall i :: 0 <= i < |s.runs| ==> s1.runs[i] == s1.runs[..|s.runs|][i];
    } else {
      LoopKeepsBooks(s, s.runs[a.run].pc.queue, s.runs[a.run].pc.loop, a.ready, j);
      var s1 := LoopStep(s, s.runs[a.run].pc.queue, s.runs[a.run].pc.loop, a.ready).0;
      assert forall i :: 0 <= i < |s.runs| ==> s1.runs[i] == s1.runs[..|s.runs|][i];
    }
  }

  lemma StepKeepsKept(s: System, a: Action, j: Job)
    requires Kept(s, j) && Enabled(s, a) && Keeping(s, a, j)
    ensures Kept(Step(s, a), j)
  {
    if (a.Manage? && s.manager.Looping?) || (a.KickOn? && s.runs[a.run].pc.InLoop?) {
      LoopsKeepBooks(s, a, j);
    } else {
      OthersKeepBooks(s, a, j);
    }
    hide Step, Places;
    StepConserves(s, a, j);
  }

  lemma ManagerKeepsBooks(s: System, ready: bool, j: Job)
    requires Kept(s, j) && ManageEnabled(s) && !s.manager.Looping?
    ensures BooksKept(s, ManageStep(s, ready), j)
  {
    hide LoopStep, Places;
  }

  lemma SettleDisposesNot(s: System, i: nat, j: Job)
    requires Enabled(s, Settle(i)) && j.id !in s.blacklist
    requires s.runs[i].job == j ==> s.runs[i].pc != Returned(Dispose)
    ensures SettleStep(s, i).gone[j] == s.gone[j]
  {
  }

  lemma SettleKeepsBooks(s: System, i: nat, j: Job)
    requires Kept(s, j) && Enabled(s, Settle(i))
    ensures BooksKept(s, SettleStep(s, i), j)
  {
    hide Places;
    SettleDisposesNot(s, i, j);
    var s' := SettleStep(s, i);
    forall k | 0 <= k < |s'.runs| && s'.runs[k].job == j ensures s'.runs[k].pc != Returned(Dispose) {
      if k != i { LeavesRunAlone(s, Settle(i), k); }
    }
  }

  lemma OthersKeepBooks(s: System, a: Action, j: Job)
    requires Kept(s, j) && Enabled(s, a) && Keeping(s, a, j)
    requires !((a.Manage? && s.manager.Looping?) || (a.KickOn? && s.runs[a.run].pc.InLoop?))
    ensures BooksKept(s, Step(s, a), j)
  {
    hide LoopStep, Places;
    if a.Manage? {
      ManagerKeepsBooks(s, a.ready, j);
      hide ManageStep, BooksKept;
    } else if a.Settle? {
      SettleKeepsBooks(s, a.run, j);
      hide SettleStep, BooksKept;
    } else {
      hide ManageStep, SettleStep;
    }
  }

  /** Where nobody is live nobody owns j, so all copies of it are in queues or in the manager's hands. */
  lemma NobodyOwns(s: System, j: Job)
    requires RunsOk(s) && NobodyLive(s) && !j.async
    ensures Total(Owned(j), s.runs) == 0
  {
    forall i | 0 <= i < |s.runs| ensures At(Owned(j), s.runs[i]) == 0 {
      assert RunOk(s, s.runs[i]) && !Live(s.runs[i]);
    }
    TotalZero(Owned(j), s.runs);
  }

  function Ord(p: Phase): nat {
    match p
    case Init => 0
    case Main => 1
    case CleanUp => 2
  }

  function Stop(m: ManagerPc): nat {
    match m
    case Idle => 0
    case Closing => 1
    case Leaving(p) => 2 + 3 * (2 - Ord(p))
    case Waiting(p) => 3 + 3 * (2 - Ord(p))
    case Looping(p, _) => 3 + 3 * (2 - Ord(p))
    case Checking(p) => 4 + 3 * (2 - Ord(p))
    case Beginning => 11
    case _ => 12
  }

  function DrainEffort(s: System): nat {
    3 * |s.next| + if s.manager.DrainPopped? then 2 else if s.manager.DrainErased? then 1 else 0
  }

  function CycleEffort(s: System): nat {
    if s.manager.Looping? || s.manager.Waiting? then Effort(s) else if Drains(s.manager) then DrainEffort(s) else 0
  }

  /** In a cycle whose phase of j is still to come, with no copy of j put off to the next one. */
  predicate Early(s: System, j: Job) {
    (Drains(s.manager) || j !in s.next) &&
    match s.manager
    case Beginning => true
    case Checking(p) => Ord(p) <= Ord(j.phase)
    case Looping(p, _) => Ord(p) <= Ord(j.phase)
    case Waiting(p) => Ord(p) < Ord(j.phase)
    case Leaving(p) => Ord(p) < Ord(j.phase)
    case _ => Drains(s.manager)
  }

  /** Runs and loops of other phases put no copy of j off. */
  lemma RunKeepsEarly(s: System, k: nat, j: Job)
    requires Steady(s) && Early(s, j) && !j.async && k < |s.runs| && Live(s.runs[k]) && !WorkingOn(s.manager, j.phase)
    requires Enabled(s, Onward(s, k, j)) && Step(s, Onward(s, k, j)).manager == s.manager
    ensures Early(Step(s, Onward(s, k, j)), j)
  {
    assert RunOk(s, s.runs[k]) && RunSorted(s.runs[k], s.cycle) && StateMatches(s);
    hide Steady, Stands, RunOk;
  }

  lemma ManagerKeepsEarly(s: System, j: Job)
    requires Steady(s) && Early(s, j) && Enabled(s, Manage(true)) && !WorkingOn(s.manager, j.phase)
    requires s.manager == Checking(j.phase) ==> s.queues.At(j.phase) != []
    ensures Early(Step(s, Manage(true)), j)
  {
    assert Sorted(s);
    hide Steady, Stands;
  }

  lemma NoneLiveAtRest(s: System)
    requires Steady(s) && NobodyLive(s) && !s.manager.Looping? && !s.manager.Idle?
    ensures May(s, Manage(true))
    ensures var s' := Step(s, Manage(true));
      Stop(s'.manager) <= Stop(s.manager) && (Stop(s'.manager) == Stop(s.manager) ==> CycleEffort(s') < CycleEffort(s))
  {
    if s.manager.Waiting? { NoneLiveCountZero(s, s.manager.phase); }
    forall i | 0 <= i < |s.runs| ensures !s.runs[i].pc.InLoop? {
      assert RunOk(s, s.runs[i]) && !Live(s.runs[i]);
    }
    hide Steady, NobodyLive, Effort;
  }

  /** Before its phase, all copies of j wait in the queue of that phase, or are on their way to it. */
  lemma QueuedBeforePhase(s: System, j: Job)
    requires Steady(s) && Kept(s, j) && s.manager == Checking(j.phase) && j !in s.next
    ensures s.queues.At(j.phase) != []
  {
    NoneLive(s);
    NobodyOwns(s, j);
    QueuedInItsPhase(s, j);
    assert Times(s.next, j) == 0;
    assert Times(s.queues.At(j.phase), j) >= 2;
    hide Total, Queued;
  }

  lemma {:induction false} OwnedWithinUnfinished(runs: seq<Run>, j: Job)
    requires !j.async
    ensures Total(Owned(j), runs) <= Total(Unfinished(j), runs)
  {
    if runs == [] {
    } else {
      OwnedWithinUnfinished(runs[..|runs| - 1], j);
    }
  }

  /** Entering its phase, the manager finds two copies of j to schedule. */
  lemma EnteringMeets(s: System, j: Job)
    requires Steady(s) && Kept(s, j) && s.manager == Looping(j.phase, Top) && j !in s.next && !RunLoops(s)
    ensures Meeting(s, j)
  {
    OwnedWithinUnfinished(s.runs, j);
    assert Times(s.next, j) == 0;
    hide Total, Queued;
  }

  /** One more step towards the end of the cycle, both copies kept. */
  ghost predicate GoesOn(s: System, a: Action, j: Job) {
    && May(s, a) && Steady(Step(s, a)) && Keeping(s, a, j)
    && Stop(Step(s, a).manager) <= Stop(s.manager)
    && (Stop(Step(s, a).manager) == Stop(s.manager) ==> CycleEffort(Step(s, a)) < CycleEffort(s))
    && (Early(s, j) && !WorkingOn(s.manager, j.phase) ==> Early(Step(s, a), j))
  }

  lemma ContinueMoving(s: System, j: Job) returns (a: Action)
    requires Steady(s) && !j.async
    requires s.manager.Looping? || exists k :: 0 <= k < |s.runs| && Mover(s, k, j, false)
    ensures GoesOn(s, a, j)
  {
    a := Choose(s, j, false);
    if s.manager.Looping? {
      if Early(s, j) && !WorkingOn(s.manager, j.phase) { ManagerKeepsEarly(s, j); }
    } else {
      var k :| 0 <= k < |s.runs| && a == Onward(s, k, j) && Mover(s, k, j, false);
      assert RunOk(s, s.runs[k]);
      assert WorkingOn(s.manager, s.runs[k].job.phase);
      if Early(s, j) && !WorkingOn(s.manager, j.phase) { RunKeepsEarly(s, k, j); }
    }
    assert Keeping(s, a, j);
    hide Step, Steady, Effort, Early, LocksFree, Enabled, RunOk, Stands;
  }

  lemma ContinueManaging(s: System, j: Job)
    requires Steady(s) && Kept(s, j) && !s.manager.Idle? && !s.manager.Looping? && NobodyLive(s)
    ensures GoesOn(s, Manage(true), j)
  {
    var a := Manage(true);
    NoneLiveAtRest(s);
    StepKeepsSteady(s, a);
    if Early(s, j) && !WorkingOn(s.manager, j.phase) {
      if s.manager == Checking(j.phase) { QueuedBeforePhase(s, j); }
      ManagerKeepsEarly(s, j);
    }
    hide Step, Steady, Effort, Early, LocksFree, Enabled, Kept;
  }

  lemma Continue(s: System, j: Job) returns (a: Action)
    requires Steady(s) && Kept(s, j) && !s.manager.Idle?
    ensures GoesOn(s, a, j) && Kept(Step(s, a), j)
  {
    if s.manager.Looping? || exists k :: 0 <= k < |s.runs| && Mover(s, k, j, false) {
      a := ContinueMoving(s, j);
    } else {
      a := Manage(true);
      forall k | 0 <= k < |s.runs| ensures !Live(s.runs[k]) {
        assert !Mover(s, k, j, false);
      }
      ContinueManaging(s, j);
    }
    hide Step, Steady, Keeping;
    StepKeepsKept(s, a, j);
  }

  lemma {:induction false} EarlyBreaks(s: System, j: Job)
    requires Steady(s) && Kept(s, j) && Early(s, j) && !WorkingOn(s.manager, j.phase)
    ensures Breaks(s, true)
    decreases Stop(s.manager), CycleEffort(s)
  {
    var a := Continue(s, j);
    var s' := Step(s, a);
    if WorkingOn(s'.manager, j.phase) {
      EnteredTop(s, a, j);
      EnteringMeets(s', j);
      MeetingBreaks(s', j);
    } else {
      hide Step, Steady, Kept, CycleEffort, May, Early;
      EarlyBreaks(s', j);
    }
    Then(s, a);
  }

  /** The phase is entered at the top of the loop, with no run alive. */
  lemma EnteredTop(s: System, a: Action, j: Job)
    requires Steady(s) && May(s, a) && Early(s, j) && !WorkingOn(s.manager, j.phase)
    requires WorkingOn(Step(s, a).manager, j.phase)
    ensures var s' := Step(s, a); s'.manager == Looping(j.phase, Top) && j !in s'.next && !RunLoops(s')
  {
    assert s.manager == Checking(j.phase);
    NoneLive(s);
    forall i | 0 <= i < |s.runs| ensures !s.runs[i].pc.InLoop? {
      assert RunOk(s, s.runs[i]) && !Live(s.runs[i]);
    }
    hide Steady;
  }

  lemma {:induction false} KeptBreaks(s: System, j: Job)
    requires Steady(s) && Kept(s, j)
    ensures Breaks(s, true)
    decreases Stop(s.manager), CycleEffort(s)
  {
    if s.manager.Idle? {
      var a := Manage(true);
      assert May(s, a);
      StepKeepsSteady(s, a);
      StepKeepsKept(s, a, j);
      EarlyBreaks(Step(s, a), j);
      Then(s, a);
    } else {
      var a := Continue(s, j);
      hide Step, Steady, Kept, CycleEffort, May;
      KeptBreaks(Step(s, a), j);
      Then(s, a);
    }
  }

  // ---- The exact condition ----

  function JobOf(a: Action): Job
    requires IsKick(a)
  {
    a.job
  }

  predicate NearlyDone(pc: RunPc) {
    pc == Returned(Dispose) || pc.Finishing?
  }

  /** A held job that is in no place any more is a run about to finish. */
  lemma HeldElsewhere(s: System, j: Job) returns (i: nat)
    requires RunsOk(s) && !j.async && Places(s, j) == 0 && Work(s, j) > 0
    ensures i < |s.runs| && s.runs[i].job == j && s.runs[i].pc.Finishing?
  {
    i := SomeWeight(Unfinished(j), s.runs);
    TotalCovers(Owned(j), s.runs, i);
    assert At(Owned(j), s.runs[i]) == 0;
    hide Total;
  }

  lemma {:induction false} TotalCoversTwo(w: Weight, runs: seq<Run>, i: nat, k: nat)
    requires i < |runs| && k < |runs| && i != k
    ensures At(w, runs[i]) + At(w, runs[k]) <= Total(w, runs)
  {
    var n := |runs| - 1;
    if i == n {
      TotalCovers(w, runs[..n], k);
    } else if k == n {
      TotalCovers(w, runs[..n], i);
    } else {
      TotalCoversTwo(w, runs[..n], i, k);
    }
  }

  /** The only copy in hand is a run about to finish, so nobody is deferring j. */
  lemma SingleRunDefersNot(s: System, i: nat, j: Job)
    requires Single(s) && !j.async && i < |s.runs| && s.runs[i].job == j && NearlyDone(s.runs[i].pc)
    ensures NobodyDefers(s, j) && Work(s, j) == 1
  {
    var w := Unfinished(j);
    TotalCovers(w, s.runs, i);
    assert Work(s, j) <= 1;
    forall k | 0 <= k < |s.runs| && s.runs[k].pc.InLoop? ensures s.runs[k].pc.loop != Deferring(j) {
      assert k != i;
      TotalCoversTwo(w, s.runs, i, k);
    }
    hide Total, Queued;
  }

  /** Beside a run of j about to finish only a job of the same phase can kick, so the new copy joins it. */
  lemma KickBesideBreaks(s: System, a: Action, i: nat)
    requires Barrier(s) && Single(s) && Exclusive(s) && Enabled(s, a) && KicksFromPhase(s, a)
    requires IsKick(a) && !JobOf(a).async
    requires i < |s.runs| && s.runs[i].job == JobOf(a) && NearlyDone(s.runs[i].pc)
    ensures Breaks(Step(s, a), true)
  {
    var j, s' := JobOf(a), Step(s, a);
    assert RunOk(s, s.runs[i]) && StateMatches(s);
    assert a.Kick?;
    SteadyAfterKick(s, a);
    SingleRunDefersNot(s, i, j);
    AdvanceWork(s, a.run, KickErased(j), j);
    WorkFrame(Advance(s, a.run, KickErased(j)), s', j);
    hide Barrier, Single, Exclusive, Steady, Work;
    assert NobodyDefers(s', j);
    MeetingBreaks(s', j);
  }

  lemma SteadyAfterKick(s: System, a: Action)
    requires Barrier(s) && Exclusive(s) && Enabled(s, a) && KicksFromPhase(s, a) && IsKick(a)
    ensures Steady(Step(s, a))
  {
    StepKeepsBarrier(s, a);
    NoneOrphaned(Step(s, a));
    forall k | 0 <= k < |Step(s, a).runs| ensures OnlyLooping(Step(s, a), k) {
      assert OnlyLooping(s, k);
    }
    hide Barrier;
  }

  lemma NoneOrphaned(s: System)
    requires Barrier(s)
    ensures Stands(s) && NoOrphans(s)
  {
  }

  /** After the kick of a held job a lawful continuation breaks the barrier. */
  lemma StaleKickBreaks(s: System, a: Action)
    requires Barrier(s) && Single(s) && Exclusive(s) && Enabled(s, a) && KicksFromPhase(s, a) && !FreshKick(s, a)
    ensures Breaks(Step(s, a), true)
  {
    var j := JobOf(a);
    if i :| 0 <= i < |s.runs| && s.runs[i].job == j && s.runs[i].pc == Returned(Dispose) {
      KickBesideBreaks(s, a, i);
    } else if Places(s, j) == 0 {
      var i := HeldElsewhere(s, j);
      KickBesideBreaks(s, a, i);
    } else {
      SteadyAfterKick(s, a);
      StaleIsKept(s, a, j);
      KeptBreaks(Step(s, a), j);
    }
  }

  lemma StaleIsKept(s: System, a: Action, j: Job)
    requires Enabled(s, a) && IsKick(a) && JobOf(a) == j && !j.async && Places(s, j) > 0
    requires forall i :: 0 <= i < |s.runs| && s.runs[i].job == j ==> s.runs[i].pc != Returned(Dispose)
    ensures Kept(Step(s, a), j)
  {
    StepConserves(s, a, j);
    hide Places;
  }

  lemma {:induction false} KicklessIsFresh(s: System, acts: seq<Action>)
    requires Valid(s, acts) && Kickless(acts)
    ensures FreshRun(s, acts)
    decreases |acts|
  {
    if acts == [] {
    } else {
      assert !IsKick(acts[0]);
      KicklessIsFresh(Step(s, acts[0]), acts[1..]);
    }
  }

  /** Without a stale kick no continuation breaks it, lawful or not. */
  lemma SingleIsSafe(s: System)
    requires Barrier(s) && Single(s)
    ensures !Breaks(s, false) && !Breaks(s, true)
  {
    forall acts | Valid(s, acts) && Kickless(acts) ensures !Broken(Last(s, acts)) {
      KicklessIsFresh(s, acts);
      FreshRunsAreOrderly(s, acts);
      if Last(s, acts).manager.Leaving? { NoneLive(Last(s, acts)); }
    }
  }

  /** A kick that the barrier is meant for is safe, whatever happens afterwards short of further kicks, if and
      only if the job is asynchronous or not held by the job system; and it makes no difference whether what
      happens has to be lawful. */
  lemma FreshKickIff(s: System, a: Action, lawful: bool)
    requires Barrier(s) && Single(s) && Exclusive(s) && Enabled(s, a) && KicksFromPhase(s, a) && IsKick(a)
    ensures FreshKick(s, a) <==> !Breaks(Step(s, a), lawful)
  {
    if FreshKick(s, a) {
      StepKeepsBarrier(s, a);
      StepKeepsSingle(s, a);
      SingleIsSafe(Step(s, a));
    } else {
      StaleKickBreaks(s, a);
    }
  }

  /** At no point of the run is a continuation without kicks that breaks the barrier. */
  ghost predicate AlwaysSafe(s: System, acts: seq<Action>, lawful: bool)
    requires Valid(s, acts)
    decreases |acts|
  {
    !Breaks(s, lawful) && (acts == [] || AlwaysSafe(Step(s, acts[0]), acts[1..], lawful))
  }

  /** So a whole run is safe at every point if and only if every kick in it is fresh. */
  lemma {:induction false} FreshRunIff(s: System, acts: seq<Action>, lawful: bool)
    requires Barrier(s) && Single(s) && Exclusive(s) && Valid(s, acts) && PhaseKicks(s, acts) && Disciplined(s, acts)
    ensures FreshRun(s, acts) <==> AlwaysSafe(s, acts, lawful)
    decreases |acts|
  {
    SingleIsSafe(s);
    if acts == [] {
    } else {
      var a, s' := acts[0], Step(s, acts[0]);
      if FreshKick(s, a) {
        if a.Finish? { SingleFinishesAlone(s, a.run); }
        StepKeepsBarrier(s, a);
        StepKeepsSingle(s, a);
        StepKeepsExclusive(s, a);
        hide Barrier, Single, Exclusive, Step, KicksFromPhase, FreshKick;
        FreshRunIff(s', acts[1..], lawful);
      } else {
        FreshKickIff(s, a, lawful);
      }
    }
  }
}
