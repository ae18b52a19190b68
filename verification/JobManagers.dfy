/** The queues of JobManager with each public call as one atomic operation. */
module JobManagers {
  import opened JobModel
  import opened Scheduler

  /** The jobs of q that answer IsReadyForExecution with yes; `answer` is asked from number n on. */
  function Admitted(q: seq<Job>, answer: nat -> bool, n: nat): seq<Job> {
    if q == [] then []
    else (if answer(n) then [q[0]] else []) + Admitted(q[1..], answer, n + 1)
  }

  /** The jobs of q that are not ready and not stopped by the blacklist. */
  function Deferred(q: seq<Job>, answer: nat -> bool, n: nat, blacklist: set<string>): seq<Job> {
    if q == [] then []
    else (if answer(n) || q[0].id in blacklist then [] else [q[0]]) + Deferred(q[1..], answer, n + 1, blacklist)
  }

  /** The jobs of q that are not ready and stopped by the blacklist. */
  function Stopped(q: seq<Job>, answer: nat -> bool, n: nat, blacklist: set<string>): seq<Job> {
    if q == [] then []
    else (if !answer(n) && q[0].id in blacklist then [q[0]] else []) + Stopped(q[1..], answer, n + 1, blacklist)
  }

  /** The synchronous jobs of q. */
  function Synchronous(q: seq<Job>): seq<Job> {
    if q == [] then [] else (if q[0].async then [] else [q[0]]) + Synchronous(q[1..])
  }

  /** The jobs of q that belong to phase p. */
  function OfPhase(q: seq<Job>, p: Phase): seq<Job> {
    if q == [] then [] else (if q[0].phase == p then [q[0]] else []) + OfPhase(q[1..], p)
  }

  /** What one scheduling pass over a phase queue works on: the queue, the next-cycle queue, the jobs
      handed to the execution, the AddCounter calls on the phase counter, the readiness questions asked. */
  datatype Book = Book(queue: seq<Job>, next: seq<Job>, scheduled: seq<Job>, counted: seq<Job>, asked: nat)

  function OfferOne(b: Book, answer: nat -> bool, blacklist: set<string>): Book
    requires b.queue != []
  {
    var job := b.queue[0];
    var b := b.(queue := b.queue[1..], asked := b.asked + 1);
    if !answer(b.asked - 1) then
      (if job.id in blacklist then b else b.(next := b.next + [job]))
    else
      b.(scheduled := b.scheduled + [job], counted := if job.async then b.counted else b.counted + [job])
  }

  function OfferAll(b: Book, answer: nat -> bool, blacklist: set<string>): Book
    decreases |b.queue|
  {
    if b.queue == [] then b else OfferAll(OfferOne(b, answer, blacklist), answer, blacklist)
  }

  lemma OfferNone(b: Book, answer: nat -> bool, blacklist: set<string>)
    requires b.queue == []
    ensures OfferAll(b, answer, blacklist) == b
  {
  }

  lemma OfferNext(b: Book, c: Book, answer: nat -> bool, blacklist: set<string>)
    requires b.queue != [] && c == OfferOne(b, answer, blacklist)
    ensures OfferAll(b, answer, blacklist) == OfferAll(c, answer, blacklist)
  {
  }

  /** The phase queues after kicking the waiting jobs one by one. */
  function DrainAll(queues: PerPhase<seq<Job>>, waiting: seq<Job>): PerPhase<seq<Job>>
    decreases |waiting|
  {
    if waiting == [] then queues
    else
      var job := waiting[0];
      DrainAll(queues.Put(job.phase, queues.At(job.phase) + [job]), waiting[1..])
  }

  class JobManager {
    var state: ManagerState
    var initQueue: seq<Job>
    var mainQueue: seq<Job>
    var cleanUpQueue: seq<Job>
    var nextCycleQueue: seq<Job>
    var blacklist: set<string>
    var counted: PerPhase<seq<Job>>  // AddCounter calls, per phase counter
    var scheduled: seq<Job>          // jobs handed to the execution
    var asked: nat                   // IsReadyForExecution calls so far
    const answer: nat -> bool        // their answers

    constructor (answer: nat -> bool)
      ensures state == Ready && blacklist == {} && nextCycleQueue == []
      ensures forall p: Phase :: Queue(p) == []
    {
      state := Ready;
      initQueue, mainQueue, cleanUpQueue, nextCycleQueue := [], [], [], [];
      blacklist := {};
      counted := PerPhase([], [], []);
      scheduled := [];
      asked := 0;
      this.answer := answer;
    }

    function Queues(): PerPhase<seq<Job>>
      reads this
    {
      PerPhase(initQueue, mainQueue, cleanUpQueue)
    }

    function Queue(p: Phase): seq<Job>
      reads this
    {
      Queues().At(p)
    }

    method SetQueue(p: Phase, q: seq<Job>)
      modifies this`initQueue, this`mainQueue, this`cleanUpQueue
      ensures Queues() == old(Queues()).Put(p, q)
    {
      match p {
        case Init => initQueue := q;
        case Main => mainQueue := q;
        case CleanUp => cleanUpQueue := q;
      }
    }

    method KickJobForNextCycle(job: Job)
      modifies this`nextCycleQueue
      ensures nextCycleQueue == if job.id in blacklist then old(nextCycleQueue) else old(nextCycleQueue) + [job]
    {
      if job.id in blacklist {
        return;
      }
      nextCycleQueue := nextCycleQueue + [job];
    }

    function BookOf(p: Phase): Book
      reads this
    {
      Book(Queue(p), nextCycleQueue, scheduled, counted.At(p), asked)
    }

    /** Empties the queue of phase p, offering its jobs in order. */
    method ScheduleAllJobsInQueue(p: Phase)
      modifies this
      ensures BookOf(p) == OfferAll(old(BookOf(p)), answer, blacklist) && Queue(p) == []
      ensures Queues() == old(Queues()).Put(p, []) && counted == old(counted).Put(p, counted.At(p))
      ensures state == old(state) && blacklist == old(blacklist)
    {
      hide OfferAll;
      while Queue(p) != []
        invariant OfferAll(BookOf(p), answer, blacklist) == OfferAll(old(BookOf(p)), answer, blacklist)
        invariant Queues() == old(Queues()).Put(p, Queue(p)) && counted == old(counted).Put(p, counted.At(p))
        invariant state == old(state) && blacklist == old(blacklist)
        decreases |Queue(p)|
      {
        ghost var b := BookOf(p);
        var job := Queue(p)[0];
        SetQueue(p, Queue(p)[1..]);
        var ready := answer(asked);
        asked := asked + 1;
        if !ready {
          KickJobForNextCycle(job);
          OfferNext(b, BookOf(p), answer, blacklist);
          continue;
        }
        if !job.async {
          counted := counted.Put(p, counted.At(p) + [job]);
        }
        scheduled := scheduled + [job];
        OfferNext(b, BookOf(p), answer, blacklist);
      }
      OfferNone(BookOf(p), answer, blacklist);
    }

    /** Outside its phase a kicked job waits in its queue; inside, the whole queue is offered at once. */
    method KickJob(job: Job)
      modifies this
      ensures state == old(state) && blacklist == old(blacklist) - {job.id}
      ensures var p := job.phase; var b := old(BookOf(p)).(queue := old(Queue(p)) + [job]);
        BookOf(p) == if state == CycleOf(p) then OfferAll(b, answer, blacklist) else b
      ensures Queues() == old(Queues()).Put(job.phase, Queue(job.phase))
      ensures counted == old(counted).Put(job.phase, counted.At(job.phase))
    {
      blacklist := blacklist - {job.id};
      SetQueue(job.phase, Queue(job.phase) + [job]);
      if state == CycleOf(job.phase) {
        ScheduleAllJobsInQueue(job.phase);
      }
    }

    /** The first part of InvokeCycleAndWait: the blacklist is cleared and the waiting jobs are kicked. */
    method DrainNextCycleQueue()
      requires state == Ready
      modifies this
      ensures state == old(state) && nextCycleQueue == [] && blacklist == {}
      ensures Queues() == DrainAll(old(Queues()), old(nextCycleQueue))
      ensures scheduled == old(scheduled) && counted == old(counted)
    {
      blacklist := {};
      while nextCycleQueue != []
        invariant state == old(state) && blacklist == {}
        invariant DrainAll(Queues(), nextCycleQueue) == DrainAll(old(Queues()), old(nextCycleQueue))
        invariant scheduled == old(scheduled) && counted == old(counted)
        decreases |nextCycleQueue|
      {
        hide OfferAll;
        var job := nextCycleQueue[0];
        nextCycleQueue := nextCycleQueue[1..];
        KickJob(job);
      }
    }

    static method TryRemoveJobWithIdFromQueue(id: string, queue: seq<Job>) returns (newQueue: seq<Job>)
      ensures newQueue == Without(queue, id)
    {
      newQueue := [];
      var rest := queue;
      while rest != []
        invariant newQueue + Without(rest, id) == Without(queue, id)
        decreases |rest|
      {
        var job := rest[0];
        rest := rest[1..];
        if job.id != id {
          newQueue := newQueue + [job];
        }
      }
    }

    method DetachJob(id: string)
      modifies this
      ensures blacklist == old(blacklist) + {id} && state == old(state)
      ensures nextCycleQueue == Without(old(nextCycleQueue), id)
      ensures forall p: Phase :: Queue(p) == Without(old(Queue(p)), id)
      ensures scheduled == old(scheduled) && counted == old(counted)
    {
      blacklist := blacklist + {id};
      nextCycleQueue := TryRemoveJobWithIdFromQueue(id, nextCycleQueue);
      initQueue := TryRemoveJobWithIdFromQueue(id, initQueue);
      mainQueue := TryRemoveJobWithIdFromQueue(id, mainQueue);
      cleanUpQueue := TryRemoveJobWithIdFromQueue(id, cleanUpQueue);
    }
  }

  /** Offering the first job of a queue, then the rest. */
  lemma OfferFirst(q: seq<Job>, answer: nat -> bool, n: nat, blacklist: set<string>)
    requires q != []
    ensures Admitted(q, answer, n) == (if answer(n) then [q[0]] else []) + Admitted(q[1..], answer, n + 1)
    ensures Deferred(q, answer, n, blacklist)
         == (if answer(n) || q[0].id in blacklist then [] else [q[0]]) + Deferred(q[1..], answer, n + 1, blacklist)
    ensures Synchronous(Admitted(q, answer, n))
         == (if answer(n) && !q[0].async then [q[0]] else []) + Synchronous(Admitted(q[1..], answer, n + 1))
  {
    if answer(n) {
      assert ([q[0]] + Admitted(q[1..], answer, n + 1))[1..] == Admitted(q[1..], answer, n + 1);
    } else {
      assert [] + Admitted(q[1..], answer, n + 1) == Admitted(q[1..], answer, n + 1);
    }
  }

  // ---- What these operations mean ----

  /** A scheduling pass schedules the ready jobs, in queue order, and empties the queue. */
  lemma {:induction false} OfferAllSchedules(b: Book, answer: nat -> bool, blacklist: set<string>)
    ensures var e := OfferAll(b, answer, blacklist);
      e.queue == [] && e.scheduled == b.scheduled + Admitted(b.queue, answer, b.asked)
    decreases |b.queue|
  {
    if b.queue == [] {
    } else {
      OfferAllSchedules(OfferOne(b, answer, blacklist), answer, blacklist);
      OfferFirst(b.queue, answer, b.asked, blacklist);
      OfferOneMeans(b, answer, blacklist);
      hide Admitted, Deferred, Synchronous, OfferOne;
      Assoc(b.scheduled, if answer(b.asked) then [b.queue[0]] else [], Admitted(b.queue[1..], answer, b.asked + 1));
    }
  }

  /** The jobs that are not ready wait for the next cycle, in order, unless blacklisted. */
  lemma {:induction false} OfferAllDefers(b: Book, answer: nat -> bool, blacklist: set<string>)
    ensures OfferAll(b, answer, blacklist).next == b.next + Deferred(b.queue, answer, b.asked, blacklist)
    decreases |b.queue|
  {
    if b.queue == [] {
    } else {
      OfferAllDefers(OfferOne(b, answer, blacklist), answer, blacklist);
      OfferFirst(b.queue, answer, b.asked, blacklist);
      OfferOneMeans(b, answer, blacklist);
      hide Admitted, Deferred, Synchronous, OfferOne;
      Assoc(b.next, if answer(b.asked) || b.queue[0].id in blacklist then [] else [b.queue[0]],
            Deferred(b.queue[1..], answer, b.asked + 1, blacklist));
    }
  }

  /** Exactly the scheduled synchronous jobs raise the phase counter. */
  lemma {:induction false} OfferAllCounts(b: Book, answer: nat -> bool, blacklist: set<string>)
    ensures OfferAll(b, answer, blacklist).counted == b.counted + Synchronous(Admitted(b.queue, answer, b.asked))
    decreases |b.queue|
  {
    if b.queue == [] {
    } else {
      OfferAllCounts(OfferOne(b, answer, blacklist), answer, blacklist);
      OfferFirst(b.queue, answer, b.asked, blacklist);
      OfferOneMeans(b, answer, blacklist);
      hide Admitted, Deferred, Synchronous, OfferOne;
      Assoc(b.counted, if answer(b.asked) && !b.queue[0].async then [b.queue[0]] else [],
            Synchronous(Admitted(b.queue[1..], answer, b.asked + 1)));
    }
  }

  lemma OfferOneMeans(b: Book, answer: nat -> bool, blacklist: set<string>)
    requires b.queue != []
    ensures var e := OfferOne(b, answer, blacklist); var j := b.queue[0];
      && e.queue == b.queue[1..] && e.asked == b.asked + 1
      && e.scheduled == b.scheduled + (if answer(b.asked) then [j] else [])
      && e.next == b.next + (if answer(b.asked) || j.id in blacklist then [] else [j])
      && e.counted == b.counted + (if answer(b.asked) && !j.async then [j] else [])
  {
  }

  /** Offering a queue for scheduling splits it: each job is scheduled, deferred or stopped, once. */
  lemma {:induction false} OfferingSplits(q: seq<Job>, answer: nat -> bool, n: nat, blacklist: set<string>)
    ensures multiset(q) == multiset(Admitted(q, answer, n)) + multiset(Deferred(q, answer, n, blacklist))
                         + multiset(Stopped(q, answer, n, blacklist))
  {
    if q == [] {
    } else {
      assert q == [q[0]] + q[1..];
      OfferingSplits(q[1..], answer, n + 1, blacklist);
    }
  }

  /** The job stands in the queue at a place for which the answer is this one; answer number n + k belongs to
      position k. */
  ghost predicate AnsweredAt(q: seq<Job>, answer: nat -> bool, n: nat, j: Job, ready: bool) {
    exists k :: 0 <= k < |q| && q[k] == j && answer(n + k) == ready
  }

  lemma AnsweredFirst(q: seq<Job>, answer: nat -> bool, n: nat, j: Job, ready: bool)
    requires q != []
    ensures AnsweredAt(q, answer, n, j, ready) <==>
      (q[0] == j && answer(n) == ready) || AnsweredAt(q[1..], answer, n + 1, j, ready)
  {
    var rest := q[1..];
    if q[0] == j && answer(n) == ready { assert answer(n + 0) == ready; }
    if k :| 0 <= k < |q| && q[k] == j && answer(n + k) == ready && k > 0 {
      assert rest[k - 1] == j && answer(n + 1 + (k - 1)) == ready;
    }
    if k :| 0 <= k < |rest| && rest[k] == j && answer(n + 1 + k) == ready {
      assert q[k + 1] == j && answer(n + (k + 1)) == ready;
    }
  }

  /** Scheduled are exactly the jobs that answered yes. */
  lemma {:induction false} AdmittedMeans(q: seq<Job>, answer: nat -> bool, n: nat, j: Job)
    ensures j in Admitted(q, answer, n) <==> AnsweredAt(q, answer, n, j, true)
  {
    if q == [] {
    } else {
      AdmittedMeans(q[1..], answer, n + 1, j);
      AnsweredFirst(q, answer, n, j, true);
      hide AnsweredAt;
    }
  }

  /** Put off are exactly those that answered no and are not blacklisted. */
  lemma {:induction false} DeferredMeans(q: seq<Job>, answer: nat -> bool, n: nat, blacklist: set<string>, j: Job)
    ensures j in Deferred(q, answer, n, blacklist) <==> j.id !in blacklist && AnsweredAt(q, answer, n, j, false)
  {
    if q == [] {
    } else {
      DeferredMeans(q[1..], answer, n + 1, blacklist, j);
      AnsweredFirst(q, answer, n, j, false);
      hide AnsweredAt;
    }
  }

  lemma {:induction false} SynchronousMeans(q: seq<Job>, j: Job)
    ensures j in Synchronous(q) <==> j in q && !j.async
  {
    if q == [] {
    } else {
      SynchronousMeans(q[1..], j);
    }
  }

  /** Draining gives every phase its share of the waiting jobs, in the order they waited. */
  lemma {:induction false} DrainAllMeans(queues: PerPhase<seq<Job>>, waiting: seq<Job>, p: Phase)
    ensures DrainAll(queues, waiting).At(p) == queues.At(p) + OfPhase(waiting, p)
    decreases |waiting|
  {
    if waiting == [] {
    } else {
      var job := waiting[0];
      var queues' := queues.Put(job.phase, queues.At(job.phase) + [job]);
      var first := if job.phase == p then [job] else [];
      assert queues'.At(p) == queues.At(p) + first;
      assert DrainAll(queues, waiting) == DrainAll(queues', waiting[1..]);
      assert OfPhase(waiting, p) == first + OfPhase(waiting[1..], p);
      hide DrainAll, OfPhase;
      DrainAllMeans(queues', waiting[1..], p);
      Assoc(queues.At(p), first, OfPhase(waiting[1..], p));
    }
  }

  /** The drain is a partition by phase: every waiting job reaches exactly one queue, its own. */
  lemma {:induction false} PhasesPartition(q: seq<Job>)
    ensures multiset(q) == multiset(OfPhase(q, Init)) + multiset(OfPhase(q, Main)) + multiset(OfPhase(q, CleanUp))
    ensures forall p: Phase, j :: j in OfPhase(q, p) ==> j.phase == p
  {
    if q == [] {
    } else {
      assert q == [q[0]] + q[1..];
      PhasesPartition(q[1..]);
    }
  }

  /** The partition is stable: cutting the waiting jobs anywhere cuts every phase's share likewise. */
  lemma {:induction false} PhasesStable(a: seq<Job>, b: seq<Job>, p: Phase)
    ensures OfPhase(a + b, p) == OfPhase(a, p) + OfPhase(b, p)
  {
    if a == [] {
      assert a + b == b;
    } else {
      assert (a + b)[1..] == a[1..] + b && (a + b)[0] == a[0];
      PhasesStable(a[1..], b, p);
      Assoc(if a[0].phase == p then [a[0]] else [], OfPhase(a[1..], p), OfPhase(b, p));
    }
  }

  // ---- The atomic call is an undisturbed run of the transition system ----

  function Spawned(q: seq<Job>, cycle: nat): seq<Run> {
    if q == [] then [] else [Run(q[0], cycle, Awaiting)] + Spawned(q[1..], cycle)
  }

  lemma SpawnedFirst(q: seq<Job>, answer: nat -> bool, n: nat, cycle: nat)
    requires q != []
    ensures Spawned(Admitted(q, answer, n), cycle)
         == (if answer(n) then [Run(q[0], cycle, Awaiting)] else []) + Spawned(Admitted(q[1..], answer, n + 1), cycle)
  {
    if answer(n) {
      assert ([q[0]] + Admitted(q[1..], answer, n + 1))[1..] == Admitted(q[1..], answer, n + 1);
    } else {
      assert [] + Admitted(q[1..], answer, n + 1) == Admitted(q[1..], answer, n + 1);
    }
  }

  /** The three sections that handle the job at the head of the queue. */
  function HandleFirst(s: System, p: Phase, ready: bool): System
    requires s.queues.At(p) != []
  {
    var (s1, l1) := LoopStep(s, p, Top, true);
    var (s2, l2) := LoopStep(s1, p, l1, ready);
    if l2.Top? then s2 else LoopStep(s2, p, l2, true).0
  }

  lemma HandleFirstEffect(s: System, p: Phase, ready: bool)
    requires s.queues.At(p) != []
    ensures var s' := HandleFirst(s, p, ready); var q := s.queues.At(p); var j := q[0];
      && s'.queues == s.queues.Put(p, q[1..])
      && s'.runs == s.runs + (if ready then [Run(j, s.cycle, Awaiting)] else [])
      && s'.next == s.next + (if ready || j.id in s.blacklist then [] else [j])
      && s'.held == s.held.Put(p, s.held.At(p) + multiset(if ready && !j.async then [j] else []))
      && s'.counts == s.counts.Put(p, s.counts.At(p) + if ready && !j.async then 1 else 0)
      && s'.state == s.state && s'.blacklist == s.blacklist && s'.cycle == s.cycle
  {
    var j := s.queues.At(p)[0];
    assert multiset([j]) == multiset{j};
    assert s.held.Put(p, s.held.At(p)) == s.held;
    assert s.runs + [] == s.runs && s.next + [] == s.next;
    var none: multiset<Job> := multiset{};
    assert s.held.At(p) + none == s.held.At(p);
  }

  /** The manager left alone in the scheduling loop: three sections per job. */
  function Undisturbed(s: System, p: Phase, answer: nat -> bool, n: nat): System
    decreases |s.queues.At(p)|
  {
    if s.queues.At(p) == [] then s
    else
      HandleFirstEffect(s, p, answer(n));
      Undisturbed(HandleFirst(s, p, answer(n)), p, answer, n + 1)
  }

  /** What ScheduleAllJobsInQueue promises is what its sections do when nobody interferes. */
  lemma {:induction false} ScheduleAllIsUndisturbedLoop(s: System, p: Phase, answer: nat -> bool, n: nat)
    ensures var s' := Undisturbed(s, p, answer, n); var q := s.queues.At(p);
      && s'.queues == s.queues.Put(p, [])
      && s'.runs == s.runs + Spawned(Admitted(q, answer, n), s.cycle)
      && s'.next == s.next + Deferred(q, answer, n, s.blacklist)
    decreases |s.queues.At(p)|
  {
    var q := s.queues.At(p);
    if q == [] {
    } else {
      HandleFirstEffect(s, p, answer(n));
      ScheduleAllIsUndisturbedLoop(HandleFirst(s, p, answer(n)), p, answer, n + 1);
      SpawnedFirst(q, answer, n, s.cycle);
      OfferFirst(q, answer, n, s.blacklist);
      hide HandleFirst, LoopStep, Spawned, Admitted, Deferred, Synchronous;
      Assoc(s.runs, if answer(n) then [Run(q[0], s.cycle, Awaiting)] else [],
            Spawned(Admitted(q[1..], answer, n + 1), s.cycle));
      Assoc(s.next, if answer(n) || q[0].id in s.blacklist then [] else [q[0]],
            Deferred(q[1..], answer, n + 1, s.blacklist));
    }
  }

  /** ... and its AddCounter calls are those of the scheduled synchronous jobs. */
  lemma FirstCounts(before: multiset<Job>, after: multiset<Job>, first: seq<Job>, rest: seq<Job>)
    requires after == before + multiset(first)
    ensures after + multiset(rest) == before + multiset(first + rest)
  {
    assert multiset(first + rest) == multiset(first) + multiset(rest);
  }

  lemma {:induction false} UndisturbedLoopCounts(s: System, p: Phase, answer: nat -> bool, n: nat)
    ensures var s' := Undisturbed(s, p, answer, n); var up := Synchronous(Admitted(s.queues.At(p), answer, n));
      && s'.held.At(p) == s.held.At(p) + multiset(up)
      && s'.counts.At(p) == s.counts.At(p) + |up|
    decreases |s.queues.At(p)|
  {
    var q := s.queues.At(p);
    if q == [] {
    } else {
      HandleFirstEffect(s, p, answer(n));
      hide HandleFirst, LoopStep, Spawned, Admitted, Deferred, Synchronous;
      var t := HandleFirst(s, p, answer(n));
      UndisturbedLoopCounts(t, p, answer, n + 1);
      OfferFirst(q, answer, n, s.blacklist);
      var first := if answer(n) && !q[0].async then [q[0]] else [];
      var rest := Synchronous(Admitted(q[1..], answer, n + 1));
      FirstCounts(s.held.At(p), t.held.At(p), first, rest);
    }
  }

  // ---- The drain of the machine, over runs ----

  function InHand(m: ManagerPc, p: Phase): seq<Job> {
    match m
    case DrainPopped(j) => if j.phase == p then [j] else []
    case DrainErased(j) => if j.phase == p then [j] else []
    case _ => []
  }

  /** The jobs of phase p in the order in which they will be offered. */
  function Line(s: System, p: Phase): seq<Job> {
    s.queues.At(p) + (InHand(s.manager, p) + OfPhase(s.next, p))
  }

  /** Steps that neither kick from outside nor detach; a job may be requeued meanwhile. The manager only drains. */
  predicate DrainingStep(s: System, a: Action) {
    match a
    case Manage(_) => Drains(s.manager)
    case Begin(_) => true
    case Kick(_, _) => true
    case Return(_, _) => true
    case Settle(_) => true
    case Finish(_) => true
    case DetachMark(_) => true
    case _ => false
  }

  ghost predicate DrainingRun(s: System, acts: seq<Action>)
    requires Valid(s, acts)
    decreases |acts|
  {
    acts == [] || (DrainingStep(s, acts[0]) && DrainingRun(Step(s, acts[0]), acts[1..]))
  }

  lemma ManageKeepsLine(s: System, ready: bool, p: Phase)
    requires Drains(s.manager) && !(s.manager.Draining? && s.next == [])
    ensures Line(ManageStep(s, ready), p) == Line(s, p) && Drains(ManageStep(s, ready).manager)
  {
    if s.manager.Draining? {
      assert OfPhase(s.next, p) == InHand(DrainPopped(s.next[0]), p) + OfPhase(s.next[1..], p);
    } else if s.manager.DrainErased? {
      Assoc(s.queues.At(p), InHand(s.manager, p), OfPhase(s.next, p));
    }
    hide OfPhase;
  }

  lemma RequeueExtendsLine(s: System, i: nat, p: Phase)
    requires i < |s.runs| && s.runs[i].pc.Requeueing?
    ensures Line(s, p) <= Line(SettleStep(s, i), p)
  {
    var j := s.runs[i].job;
    PhasesStable(s.next, [j], p);
    Assoc(s.queues.At(p) + InHand(s.manager, p), OfPhase(s.next, p), OfPhase([j], p));
    hide OfPhase, InHand;
  }

  lemma StepExtendsLine(s: System, a: Action, p: Phase)
    requires Enabled(s, a) && DrainingStep(s, a) && !(a.Manage? && s.manager.Draining? && s.next == [])
    ensures Line(s, p) <= Line(Step(s, a), p)
    ensures !a.Manage? ==> Step(s, a).queues == s.queues && Step(s, a).manager == s.manager
    ensures a.Manage? ==> Drains(Step(s, a).manager)
  {
    if a.Manage? {
      ManageKeepsLine(s, a.ready, p);
      hide Line, ManageStep;
    } else if a.Settle? && s.runs[a.run].pc.Requeueing? {
      RequeueExtendsLine(s, a.run, p);
      hide Line;
    }
    hide OfPhase, InHand;
  }

  lemma {:induction false} QueuesRest(s: System, acts: seq<Action>)
    requires s.manager.Beginning? && Valid(s, acts) && DrainingRun(s, acts)
    ensures Last(s, acts).queues == s.queues
    decreases |acts|
  {
    if acts == [] {
    } else {
      StepExtendsLine(s, acts[0], Init);
      QueuesRest(Step(s, acts[0]), acts[1..]);
    }
  }

  /** When the cycle begins, the jobs that waited for it stand in the queues of their phases, each once and in
      order, behind those that were there and before any that were requeued meanwhile. */
  lemma {:induction false} DrainOffersInOrder(s: System, acts: seq<Action>, p: Phase)
    requires Drains(s.manager) && Valid(s, acts) && DrainingRun(s, acts) && Last(s, acts).manager.Beginning?
    ensures Line(s, p) <= Last(s, acts).queues.At(p)
    ensures s.manager.Draining? ==> s.queues.At(p) + OfPhase(s.next, p) <= Last(s, acts).queues.At(p)
    decreases |acts|
  {
    var a, s' := acts[0], Step(s, acts[0]);
    assert s.manager.Draining? ==> Line(s, p) == s.queues.At(p) + OfPhase(s.next, p);
    if a.Manage? && s.manager.Draining? && s.next == [] {
      QueuesRest(s', acts[1..]);
    } else {
      StepExtendsLine(s, a, p);
      hide Line, Step, OfPhase;
      DrainOffersInOrder(s', acts[1..], p);
    }
  }

  lemma Assoc<T>(a: seq<T>, b: seq<T>, c: seq<T>)
    ensures (a + b) + c == a + (b + c)
  {
  }
}
