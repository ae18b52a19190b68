/** The order of the phases: a cycle goes through INIT, MAIN and CLEAN_UP, in this order, and a phase begins only
    when the synchronous jobs of the phases before it have finished. */
module PhaseOrder {
  import opened JobModel
  import opened Scheduler
  import opened JobConservation
  import opened PhaseCounters
  import opened PhaseBarrier
  import opened FreshKicks

  // ---- The states the manager goes through ----

  /** What is announced after this state. */
  function Next(state: ManagerState): ManagerState {
    match state
    case Ready => CycleInit
    case CycleInit => CycleMain
    case CycleMain => CycleCleanUp
    case CycleCleanUp => Ready
  }

  /** The states announced during a run, in order. */
  function Announced(s: System, acts: seq<Action>): seq<ManagerState>
    requires Valid(s, acts)
    decreases |acts|
  {
    if acts == [] then []
    else
      var s' := Step(s, acts[0]);
      (if s'.state != s.state then [s'.state] else []) + Announced(s', acts[1..])
  }

  /** The announced state is that of the phase the manager works on, and Ready outside the phases. */
  predicate InPlace(s: System) {
    s.state ==
    match s.manager
    case Checking(p) => CycleOf(p)
    case Looping(p, _) => CycleOf(p)
    case Waiting(p) => CycleOf(p)
    case Leaving(p) => CycleOf(p)
    case _ => Ready
  }

  lemma LoopKeepsPlace(s: System, p: Phase, l: Loop, ready: bool)
    requires !l.Exited?
    ensures var s' := LoopStep(s, p, l, ready).0; s'.state == s.state && s'.manager == s.manager && s'.cycle == s.cycle
  {
  }

  lemma OthersKeepPlace(s: System, a: Action)
    requires Enabled(s, a) && !a.Manage?
    ensures var s' := Step(s, a); s'.state == s.state && s'.manager == s.manager && s'.cycle == s.cycle
  {
    if a.KickOn? && s.runs[a.run].pc.InLoop? {
      LoopKeepsPlace(s, s.runs[a.run].pc.queue, s.runs[a.run].pc.loop, a.ready);
    }
    hide LoopStep, Without, Only;
  }

  /** A step keeps the announced state or goes on to the next one. */
  lemma StepAnnounces(s: System, a: Action)
    requires InPlace(s) && Enabled(s, a)
    ensures InPlace(Step(s, a)) && (Step(s, a).state == s.state || Step(s, a).state == Next(s.state))
  {
    if a.Manage? {
      if s.manager.Looping? { LoopKeepsPlace(s, s.manager.phase, s.manager.loop, a.ready); }
      hide LoopStep;
    } else {
      OthersKeepPlace(s, a);
      hide Step;
    }
  }

  /** Each state in the list follows the one before it, the first follows `before`. */
  predicate Follow(states: seq<ManagerState>, before: ManagerState) {
    forall i :: 0 <= i < |states| ==> FollowsAt(states, before, i)
  }

  predicate FollowsAt(states: seq<ManagerState>, before: ManagerState, i: nat)
    requires i < |states|
  {
    states[i] == Next(if i == 0 then before else states[i - 1])
  }

  lemma FollowOn(states: seq<ManagerState>, before: ManagerState)
    requires Follow(states, Next(before))
    ensures Follow([Next(before)] + states, before)
  {
    var all := [Next(before)] + states;
    forall i | 0 <= i < |all| ensures FollowsAt(all, before, i) {
      if i > 0 { assert FollowsAt(states, Next(before), i - 1); }
    }
  }

  lemma {:induction false} AnnouncedFollow(s: System, acts: seq<Action>)
    requires InPlace(s) && Valid(s, acts)
    ensures Follow(Announced(s, acts), s.state)
    decreases |acts|
  {
    if acts == [] {
    } else {
      var s' := Step(s, acts[0]);
      var later := Announced(s', acts[1..]);
      StepAnnounces(s, acts[0]);
      assert Announced(s, acts) == if s'.state != s.state then [s'.state] + later else later;
      hide Step, InPlace, Follow, Announced;
      AnnouncedFollow(s', acts[1..]);
      if s'.state != s.state { FollowOn(later, s.state); }
    }
  }

  /** In every run, whoever kicks, the states announced are CYCLE_INIT, CYCLE_MAIN, CYCLE_CLEAN_UP, READY, and so on
      from the beginning: within a cycle the phases entered are a prefix of INIT, MAIN, CLEAN_UP, and the manager is
      ready again only after all three. */
  lemma PhasesInOrder(acts: seq<Action>, i: nat)
    requires Valid(START, acts) && i < |Announced(START, acts)|
    ensures var states := Announced(START, acts);
      states[i] == if i == 0 then CycleInit
                   else if states[i - 1] == CycleInit then CycleMain
                   else if states[i - 1] == CycleMain then CycleCleanUp
                   else if states[i - 1] == CycleCleanUp then Ready
                   else CycleInit
  {
    AnnouncedFollow(START, acts);
    var states := Announced(START, acts);
    assert START.state == Ready && Follow(states, Ready);
    hide Announced, Valid;
    assert FollowsAt(states, Ready, i);
  }

  // ---- A later phase begins when the earlier ones have finished ----

  predicate Before(p: Phase, q: Phase) {
    (p.Init? && !q.Init?) || (p.Main? && q.CleanUp?)
  }

  /** The cycle counted last has come to phase p. */
  predicate Reached(m: ManagerPc, p: Phase) {
    match m
    case Checking(q) => !Before(q, p)
    case Looping(q, _) => !Before(q, p)
    case Waiting(q) => !Before(q, p)
    case Leaving(q) => !Before(q, p)
    case Beginning => false
    case _ => true
  }

  /** Runs of the current cycle belong to phases it has come to. */
  predicate RunsReached(s: System) {
    forall i :: 0 <= i < |s.runs| && s.runs[i].cycle == s.cycle ==> Reached(s.manager, s.runs[i].job.phase)
  }

  lemma ManageKeepsReached(s: System, ready: bool)
    requires Barrier(s) && RunsReached(s) && ManageEnabled(s)
    ensures RunsReached(ManageStep(s, ready))
  {
    var s' := ManageStep(s, ready);
    if s.manager.Looping? { LoopRuns(s, s.manager.phase, s.manager.loop, ready); }
    forall i | 0 <= i < |s'.runs| && s'.runs[i].cycle == s'.cycle ensures Reached(s'.manager, s'.runs[i].job.phase) {
      if i < |s.runs| { assert RunSorted(s.runs[i], s.cycle); }
    }
    hide LoopStep, Exact, QueueServed, CountersAgree;
  }

  lemma KickOnKeepsReached(s: System, k: nat, ready: bool)
    requires Barrier(s) && RunsReached(s) && Enabled(s, KickOn(k, ready))
    ensures RunsReached(KickOnStep(s, k, ready))
  {
    var s' := KickOnStep(s, k, ready);
    OthersKeepPlace(s, KickOn(k, ready));
    assert RunOk(s, s.runs[k]) && RunSorted(s.runs[k], s.cycle) && StateMatches(s);
    if s.runs[k].pc.InLoop? {
      KickingIsLive(s, k);
      LoopRuns(s, s.runs[k].pc.queue, s.runs[k].pc.loop, ready);
    }
    hide LoopStep, Barrier;
  }

  lemma OthersKeepReached(s: System, a: Action)
    requires RunsReached(s) && Enabled(s, a) && !a.Manage? && !a.KickOn?
    ensures RunsReached(Step(s, a))
  {
    OthersKeepPlace(s, a);
    var s' := Step(s, a);
    forall i | 0 <= i < |s'.runs| ensures s'.runs[i].job == s.runs[i].job && s'.runs[i].cycle == s.runs[i].cycle {
      if !ActsOn(a, i) { LeavesRunAlone(s, a, i); }
    }
    hide Without, Only;
  }

  lemma {:induction false} RunKeepsReached(s: System, acts: seq<Action>)
    requires Barrier(s) && RunsReached(s) && Valid(s, acts) && Orderly(s, acts)
    ensures Barrier(Last(s, acts)) && RunsReached(Last(s, acts))
    decreases |acts|
  {
    if acts == [] {
    } else {
      var a := acts[0];
      match a {
        case Manage(ready) => ManageKeepsReached(s, ready);
        case KickOn(i, ready) => KickOnKeepsReached(s, i, ready);
        case _ => OthersKeepReached(s, a);
      }
      StepKeepsBarrier(s, a);
      hide Barrier, RunsReached, ManageStep, KickOnStep, SettleStep;
      RunKeepsReached(Step(s, a), acts[1..]);
    }
  }

  /** Where the barrier holds: when a job of a later phase of a cycle has been scheduled, every synchronous job
      scheduled in the earlier phases of that cycle has finished. */
  lemma LaterPhasesWait(acts: seq<Action>, i: nat, k: nat)
    requires Valid(START, acts) && Orderly(START, acts)
    requires var s := Last(START, acts);
      && i < |s.runs| && k < |s.runs| && !s.runs[i].job.async
      && s.runs[i].cycle == s.runs[k].cycle && Before(s.runs[i].job.phase, s.runs[k].job.phase)
    ensures Last(START, acts).runs[i].pc.Done?
  {
    StartBarrier();
    RunKeepsReached(START, acts);
    var s := Last(START, acts);
    assert RunOk(s, s.runs[i]) && RunSorted(s.runs[k], s.cycle);
    hide Valid, Last, Orderly;
  }
}
