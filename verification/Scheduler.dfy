/** The job scheduler as a transition system.

    Actors are the thread inside InvokeCycleAndWait and one run per scheduled job; every lock-protected
    section of an actor is one step, and steps of different actors interleave freely. Queue mutexes that
    the source holds across several such sections are not modelled, so the system has more interleavings
    than the program. */
module Scheduler {
  import opened JobModel

  /** How a run ended: disposed (or failed), put back for the next cycle, or stopped by the blacklist. */
  datatype Outcome = Disposed | Requeued | Intercepted

  /** Where an actor stands inside ScheduleAllJobsInQueue. */
  datatype Loop =
    | Top
    | Popped(job: Job)
    | Deferring(job: Job)               // not ready and not blacklisted: about to enter the next-cycle queue
    | Counted(job: Job, cycle: nat)     // phase counter attached (synchronous jobs): about to be scheduled
    | Exited

  /** Where a scheduled job stands: the runner of BoostFiberExecution::Schedule. */
  datatype RunPc =
    | Awaiting
    | Running
    | KickErased(job: Job)              // kicking: blacklist entry erased, not yet queued
    | KickPushed(queue: Phase)          // kicking: queued, manager state not yet looked at
    | InLoop(queue: Phase, loop: Loop)  // kicking: scheduling the queue of the running phase
    | Returned(continuation: Continuation)
    | Requeueing                        // blacklist consulted: about to enter the next-cycle queue
    | Finishing(outcome: Outcome)       // about to call FinishJob
    | Done(outcome: Outcome)

  /** `cycle` tells which cycle's counter a synchronous run is attached to. */
  datatype Run = Run(job: Job, cycle: nat, pc: RunPc)

  /** Where the thread inside InvokeCycleAndWait stands. */
  datatype ManagerPc =
    | Idle
    | Draining
    | DrainPopped(job: Job)
    | DrainErased(job: Job)
    | Beginning
    | Checking(phase: Phase)
    | Looping(phase: Phase, loop: Loop)
    | Waiting(phase: Phase)
    | Leaving(phase: Phase)
    | Closing

  /** Moving the waiting jobs into the phase queues. */
  predicate Drains(m: ManagerPc) {
    m.Draining? || m.DrainPopped? || m.DrainErased?
  }

  /** The last four fields are history: they record what happened and no step consults them. */
  datatype System = System(
    state: ManagerState,
    manager: ManagerPc,
    queues: PerPhase<seq<Job>>,
    next: seq<Job>,
    blacklist: set<string>,
    counts: PerPhase<int>,
    held: PerPhase<multiset<Job>>,
    cycle: nat,
    runs: seq<Run>,
    kicked: multiset<Job>,
    gone: multiset<Job>,
    swept: multiset<Job>,
    detached: set<string>)

  const START := System(Ready, Idle, PerPhase([], [], []), [], {}, PerPhase(0, 0, 0),
                         PerPhase(multiset{}, multiset{}, multiset{}), 0, [],
                         multiset{}, multiset{}, multiset{}, {})

  datatype Action =
    | Manage(ready: bool)                    // the manager's next section
    | Begin(run: nat)                        // a worker starts the workload
    | Kick(run: nat, job: Job)               // the workload calls KickJob
    | KickOn(run: nat, ready: bool)          // the next section of that call
    | Return(run: nat, continuation: Continuation)
    | Settle(run: nat)                       // KickJobForNextCycle, section by section
    | Finish(run: nat)                       // FinishJob
    | KickOutside(job: Job)                  // another thread kicks while the job's phase is not running
    | DetachMark(id: string)                 // DetachJob: blacklist the id
    | DetachSweepNext(id: string)            // DetachJob: sweep the next-cycle queue
    | DetachSweep(queue: Phase, id: string)  // DetachJob: sweep one phase queue

  // ---- Sections shared by several callers ----

  function Push(s: System, j: Job): System {
    s.(queues := s.queues.Put(j.phase, s.queues.At(j.phase) + [j]))
  }

  /** AddCounter: raise the phase counter and remember it in the job. */
  function Count(s: System, p: Phase, j: Job): System {
    s.(counts := s.counts.Put(p, s.counts.At(p) + 1), held := s.held.Put(p, s.held.At(p) + multiset{j}))
  }

  /** FinishJob: every entry of the job's counter queue lowers its counter once. */
  function DropCounters(s: System, j: Job): System {
    s.(counts := PerPhase(s.counts.init - s.held.init[j], s.counts.main - s.held.main[j],
                          s.counts.cleanUp - s.held.cleanUp[j]),
       held := PerPhase(s.held.init[j := 0], s.held.main[j := 0], s.held.cleanUp[j := 0]))
  }

  /** One section of ScheduleAllJobsInQueue for phase p; `ready` answers IsReadyForExecution. */
  function LoopStep(s: System, p: Phase, l: Loop, ready: bool): (System, Loop)
    requires !l.Exited?
  {
    match l
    case Top =>
      var q := s.queues.At(p);
      if q == [] then (s, Exited) else (s.(queues := s.queues.Put(p, q[1..])), Popped(q[0]))
    case Popped(j) =>
      if ready then
        (if j.async then s else Count(s, p, j), Counted(j, s.cycle))
      else if j.id in s.blacklist then
        (s.(gone := s.gone + multiset{j}), Top)
      else
        (s, Deferring(j))
    case Deferring(j) =>
      (s.(next := s.next + [j]), Top)
    case Counted(j, c) =>
      (s.(runs := s.runs + [Run(j, c, Awaiting)]), Top)
  }

  function Advance(s: System, i: nat, pc: RunPc): System
    requires i < |s.runs|
  {
    s.(runs := s.runs[i := s.runs[i].(pc := pc)])
  }

  // ---- Steps ----

  predicate ManageEnabled(s: System) {
    match s.manager
    case Waiting(p) => s.counts.At(p) < 1
    case Looping(p, l) => !l.Exited?
    case _ => true
  }

  function ManageStep(s: System, ready: bool): System
    requires ManageEnabled(s)
  {
    match s.manager
    case Idle => s.(blacklist := {}, detached := {}, manager := Draining)
    case Draining =>
      if s.next == [] then
        s.(cycle := s.cycle + 1, counts := PerPhase(0, 0, 0),
           held := PerPhase(multiset{}, multiset{}, multiset{}), manager := Beginning)
      else
        s.(next := s.next[1..], manager := DrainPopped(s.next[0]))
    case DrainPopped(j) => s.(blacklist := s.blacklist - {j.id}, manager := DrainErased(j))
    case DrainErased(j) => Push(s, j).(manager := Draining)
    case Beginning => s.(state := CycleInit, manager := Checking(Init))
    case Checking(p) => s.(manager := if s.queues.At(p) == [] then Leaving(p) else Looping(p, Top))
    case Looping(p, l) =>
      var (s', l') := LoopStep(s, p, l, ready);
      s'.(manager := if l'.Exited? then Waiting(p) else Looping(p, l'))
    case Waiting(p) => s.(manager := Leaving(p))
    case Leaving(p) =>
      (match p
       case Init => s.(state := CycleMain, manager := Checking(Main))
       case Main => s.(state := CycleCleanUp, manager := Checking(CleanUp))
       case CleanUp => s.(state := Ready, manager := Closing))
    case Closing => s.(blacklist := {}, manager := Idle)
  }

  predicate RunAt(s: System, i: nat) {
    i < |s.runs|
  }

  predicate Enabled(s: System, a: Action) {
    match a
    case Manage(_) => ManageEnabled(s)
    case Begin(i) => RunAt(s, i) && s.runs[i].pc.Awaiting?
    case Kick(i, _) => RunAt(s, i) && s.runs[i].pc.Running?
    case KickOn(i, _) => RunAt(s, i) &&
      (match s.runs[i].pc
       case KickErased(_) => true
       case KickPushed(_) => true
       case InLoop(_, l) => !l.Exited?
       case _ => false)
    case Return(i, _) => RunAt(s, i) && s.runs[i].pc.Running?
    case Settle(i) => RunAt(s, i) && (s.runs[i].pc.Returned? || s.runs[i].pc.Requeueing?)
    case Finish(i) => RunAt(s, i) && s.runs[i].pc.Finishing?
    case KickOutside(j) => s.state != CycleOf(j.phase)
    case DetachMark(_) => true
    case DetachSweepNext(_) => true
    case DetachSweep(_, _) => true
  }

  function KickOnStep(s: System, i: nat, ready: bool): System
    requires Enabled(s, KickOn(i, ready))
  {
    match s.runs[i].pc
    case KickErased(j) => Advance(Push(s, j), i, KickPushed(j.phase))
    case KickPushed(p) => Advance(s, i, if s.state == CycleOf(p) then InLoop(p, Top) else Running)
    case InLoop(p, l) =>
      var (s', l') := LoopStep(s, p, l, ready);
      Advance(s', i, if l'.Exited? then Running else InLoop(p, l'))
  }

  function SettleStep(s: System, i: nat): System
    requires Enabled(s, Settle(i))
  {
    var j := s.runs[i].job;
    match s.runs[i].pc
    case Returned(c) =>
      if c.Dispose? then Advance(s, i, Finishing(Disposed)).(gone := s.gone + multiset{j})
      else if j.id in s.blacklist then Advance(s, i, Finishing(Intercepted)).(gone := s.gone + multiset{j})
      else Advance(s, i, Requeueing)
    case Requeueing => Advance(s, i, Finishing(Requeued)).(next := s.next + [j])
  }

  function Step(s: System, a: Action): System
    requires Enabled(s, a)
  {
    match a
    case Manage(ready) => ManageStep(s, ready)
    case Begin(i) => Advance(s, i, Running)
    case Kick(i, j) =>
      Advance(s, i, KickErased(j)).(blacklist := s.blacklist - {j.id}, kicked := s.kicked + multiset{j})
    case KickOn(i, ready) => KickOnStep(s, i, ready)
    case Return(i, c) => Advance(s, i, Returned(c))
    case Settle(i) => SettleStep(s, i)
    case Finish(i) => DropCounters(Advance(s, i, Done(s.runs[i].pc.outcome)), s.runs[i].job)
    case KickOutside(j) => Push(s, j).(blacklist := s.blacklist - {j.id}, kicked := s.kicked + multiset{j})
    case DetachMark(id) => s.(blacklist := s.blacklist + {id}, detached := s.detached + {id})
    case DetachSweepNext(id) =>
      s.(next := Without(s.next, id), swept := s.swept + multiset(Only(s.next, id)),
         detached := s.detached + {id})
    case DetachSweep(p, id) =>
      s.(queues := s.queues.Put(p, Without(s.queues.At(p), id)),
         swept := s.swept + multiset(Only(s.queues.At(p), id)))
  }

  /** The states a list of actions passes through from s, if every action is enabled in turn. */
  predicate Valid(s: System, acts: seq<Action>)
    decreases |acts|
  {
    acts == [] || (Enabled(s, acts[0]) && Valid(Step(s, acts[0]), acts[1..]))
  }

  function Last(s: System, acts: seq<Action>): System
    requires Valid(s, acts)
    decreases |acts|
  {
    if acts == [] then s else Last(Step(s, acts[0]), acts[1..])
  }

  // ---- What a step leaves alone ----

  /** A scheduling section leaves the runs there are alone, and adds at most new ones. */
  lemma LoopKeepsPcs(s: System, p: Phase, l: Loop, ready: bool)
    requires !l.Exited?
    ensures var s' := LoopStep(s, p, l, ready).0;
      && s'.manager == s.manager && |s.runs| <= |s'.runs|
      && (forall i :: 0 <= i < |s.runs| ==> s'.runs[i] == s.runs[i])
      && forall i :: |s.runs| <= i < |s'.runs| ==> s'.runs[i].pc.Awaiting?
  {
  }

  predicate ActsOn(a: Action, i: nat) {
    match a
    case Begin(k) => k == i
    case Kick(k, _) => k == i
    case KickOn(k, _) => k == i
    case Return(k, _) => k == i
    case Settle(k) => k == i
    case Finish(k) => k == i
    case _ => false
  }

  lemma LeavesRunAlone(s: System, a: Action, i: nat)
    requires Enabled(s, a) && i < |s.runs| && !ActsOn(a, i)
    ensures i < |Step(s, a).runs| && Step(s, a).runs[i] == s.runs[i]
  {
    if a.Manage? && s.manager.Looping? {
      LoopKeepsPcs(s, s.manager.phase, s.manager.loop, a.ready);
    } else if a.KickOn? && s.runs[a.run].pc.InLoop? {
      LoopKeepsPcs(s, s.runs[a.run].pc.queue, s.runs[a.run].pc.loop, a.ready);
    }
    hide LoopStep, Without, Only;
  }
}
