# A verified model of the job system, its lock, ownership, messaging and service calls

This project models the concurrent core of the engine and proves what it is relied on for. Every core
component appears in the form the source gives it: classes whose methods change fields and are proved
against functions of the old state, and, where several threads or fibers interleave, a transition system
whose steps are the single atomic accesses or lock-protected sections of the source.

- **Job scheduler** (`JobModel`, `Scheduler`, `JobConservation`, `PhaseCounters`, `PhaseBarrier`,
  `PhaseOrder`, `FreshKicks`, `QueueLocks`, `Continuations`, `Meetings`, `StaleKicks`, `JobLifecycle`,
  `DetachLimits`, `SchedulerCalls`, `JobManagers`, `JobCounters`). One machine with the thread in
  InvokeCycleAndWait and any number of runs on the workers; every section of KickJob,
  ScheduleAllJobsInQueue, KickJobForNextCycle, FinishJob and DetachJob is a step of its own. `JobManagers`
  and `JobCounters` are the classes; `ScheduleAllIsUndisturbedLoop`, `DrainOffersInOrder` and
  `SchedulerCalls` connect the class to the machine.
- **Recursive lock** (`RecursiveLock`): every atomic access of `try_lock` and `unlock` by any number of
  actors, refining an abstract recursive mutex.
- **Exclusive ownership** (`Ownership`, `BorrowWindows`, `OwnershipCalls`, `OwnershipRuns`, `OwnershipObjects`): owners,
  borrowers and references on a heap.
  The destructor does not take the state lock, so it is split at its last read of the borrow count, and a
  borrow through a reference at each of its reads of the alive flag and at its increment.
- **Multipart codec and messages** (`Text`, `Multipart`, `Decimal`, `Messages`): the printer, the
  find-based parser (the boundary subset of multipart/form-data, sections 4.1 and 4.2 of RFC 7578 and
  section 5.1.1 of RFC 2046), and the message and service conversions above them.
- **Service calls** (`RoundRobin`, `CallRetry`, `Capacity`, `PendingRequests`, `ResponseConsumer`).
- **Property notification** (`PropertyPaths`, `EventBroker`, `Notifications`).

## Where the code does not keep what one might expect

Each of these is a theorem with the exact condition; where it takes several steps to go wrong, a concrete run
shows how.

- **Phase barrier.** A synchronous job object that is kicked again while the job system still holds it has
  two entries in its counter queue; the first FinishJob takes both off. The phase is then left while the
  second run is still outstanding (`SelfKickBreaksTheBarrier`, with one job kicking itself once). The exact
  condition is one the caller can see: a synchronous job is kicked only while the job system does not hold
  it. With such a kick the barrier cannot break before the next kick, and after any other kick some
  continuation without further kicks breaks it, one that respects the mutexes of the program and in which
  every job is ready (`FreshKickIff`); over whole runs the barrier is out of danger at every point if and
  only if every kick was of that kind (`FreshRunIff`).
- **Detach.** The blacklist that keeps a detached job from requeueing is cleared before and after each cycle.
  If a run of the job may still ask to be requeued then, it can come back, and otherwise it cannot
  (`ClearingIsSafeIff`); synchronous runs never live that long where the barrier holds
  (`OrderlyRunsClearLate`), asynchronous ones may.
- **Death of an owner.** The destructor reads the borrow count and stores `alive = false` in two steps, and
  takes no lock. A reference that borrows in between is left with a borrower without owner
  (`BorrowInTheWindowDangles`), and so is one that had read the alive flag before and increments after the
  store, though the store happens at a count of zero (`LateIncrementDangles`). All borrowers have a living
  owner, throughout a run and after the borrows still under way, if and only if at every store the count is
  zero and no borrow stands between its last read and its increment (`NoBorrowerOutlivesIff`). Callers
  achieve it by having no borrow through a reference under way from the destructor's last read to its store,
  and every step that departs from that puts some borrower in danger (`CalmIff`, `CalmRunIff`). A TryBorrow whose two reads the store separates throws, where its documentation
  promises nothing or a borrower (`TryBorrowMayThrow`).
- **Multipart.** What is generated from a map is read back as that map if and only if every part stands
  under its own name, names contain no quote, no blank line and no delimiter, and CRLF followed by the
  content contains no delimiter (`RoundTripIff`). A message attribute named `meta` replaces the meta part,
  so it never arrives (`AttributesArriveIff`).
- **Failure to send, and retries.** The send-failure path of a remote call tries to resolve the promise even if
  a response or a closed connection has taken it already, and removes whatever stands under the transaction.
  The second of two tries takes no effect but throws `std::future_error`, which Job::Execute catches. A
  promise is tried once, plus once if sending failed late, less once if its entry was lost to another
  attempt of its transaction (`TriedOncePlusLate`, with `LateFailureTriesTwice` and `LateFailureLosesRetry`
  as runs). The handler of an earlier attempt can cancel a retry sent to another
  endpoint (`StaleHandlerCancelsRetry`); `CloseAffectsIff` says exactly when. A request sent once and ended
  by a closed connection stays marked as currently processed (`MarkedUnlessAnswered`).
- **Message type and id.** They arrive up to their first NUL only (`MessageArrivesIff`).

The comment at `subsystems/properties/src/PropertyProvider.cpp:14-20` suggests that every delimiter ends a
sub-path; the code searches from the second character on, so a leading dot does not. The model follows the
code.

## Model

| member | source | states |
|---|---|---|
| `JobConservation.StepConserves` | subsystems/jobsystem/src/JobManager.cpp:53-283 | In any atomic step, for each job: copies in queues, in hands and in flight, plus disposed, intercepted and swept ones, grow by exactly the kicks of that step |
| `JobConservation.JobsAreConserved` | subsystems/jobsystem/src/JobManager.cpp:53-283 | Over whole runs, whichever jobs kick whatever at any time: kicks of a job = its places + disposed, failed or intercepted + removed by detach; nothing is lost or duplicated |
| `PhaseCounters.StepKeepsSorted` | subsystems/jobsystem/src/JobManager.cpp:75-149 | Jobs in a phase queue, or carried out of it, belong to that phase |
| `PhaseCounters.StepKeepsAgreement` | subsystems/jobsystem/src/Job.cpp:54-72 | Every phase counter equals the number of its entries in all jobs' counter queues after every step, so Decrease never underflows |
| `PhaseCounters.StepExactIff` | subsystems/jobsystem/src/Job.cpp:65-72 | A step keeps each job's counter entries equal to its outstanding runs if and only if it does not finish a job with another outstanding run |
| `PhaseCounters.ExactIffFinishAlone` | subsystems/jobsystem/src/JobManager.cpp:139-144 | The same for whole runs, in both directions |
| `PhaseCounters.StepKeepsNoOrphans` | subsystems/jobsystem/src/Job.cpp:65-72 | Whatever finishes beside whatever, no counter queue has more entries of a job than outstanding runs |
| `PhaseBarrier.StepStands` | subsystems/jobsystem/src/JobManager.cpp:75-164 | Apart from the exactness of the counters, the invariant survives every step in which the manager does not leave a phase with live runs |
| `PhaseBarrier.StepKeepsBarrier` | subsystems/jobsystem/src/JobManager.cpp:75-164 | The invariant behind the barrier survives every step of a run whose jobs kick only while synchronous and in their own phase, whose other threads kick jobs of phases not running, and whose jobs finish alone |
| `PhaseBarrier.PhaseIsLeftClean` | subsystems/jobsystem/src/JobManager.cpp:193-220 | When the manager leaves a phase, its queue is empty, its counter is 0 and no synchronous job is scheduled or running; likewise between cycles, jobs kicking jobs to any depth |
| `PhaseOrder.PhasesInOrder` | subsystems/jobsystem/src/JobManager.cpp:197-220 | In every run the states announced are CYCLE_INIT, CYCLE_MAIN, CYCLE_CLEAN_UP, READY, in this order from the beginning, so the phases of a cycle are a prefix of INIT, MAIN, CLEAN_UP and READY comes only after all three |
| `PhaseOrder.LaterPhasesWait` | subsystems/jobsystem/src/JobManager.cpp:197-220 | Where the barrier holds: when a job of a later phase has been scheduled, every synchronous job scheduled in the earlier phases of that cycle has finished |
| `SchedulerCalls.RunnerAlone` | subsystems/jobsystem/src/BoostFiberExecution.cpp:33-45 | A runner by itself executes, requeues exactly a job that asked for it and is not blacklisted, and takes the job off its counters |
| `SchedulerCalls.KickAlone` | subsystems/jobsystem/src/JobManager.cpp:53-121 | A kick by a running job by itself takes the id off the blacklist, queues the job, and offers the whole queue exactly if its phase is running |
| `FreshKicks.StepKeepsSingle` | subsystems/jobsystem/src/JobManager.cpp:53-121 | With fresh kicks at most one copy of each synchronous job is held anywhere |
| `FreshKicks.SingleFinishesAlone` | subsystems/jobsystem/src/Job.cpp:65-72 | Then no job finishes while another run of the same object is outstanding |
| `FreshKicks.FreshRunsAreOrderly` | subsystems/jobsystem/src/JobManager.cpp:75-164 | Runs whose kicks are all fresh meet the condition of the barrier and keep it |
| `QueueLocks.StepKeepsExclusive` | subsystems/jobsystem/src/JobManager.cpp:75-149 | Steps that respect the state and queue mutexes keep at most one run scheduling, and not the queue the manager schedules |
| `Meetings.MeetingBreaks` | subsystems/jobsystem/src/JobManager.cpp:123-164 | With two copies of a synchronous job in hand in its phase, both runs come to the counter together and one finishes for both |
| `StaleKicks.KeptBreaks` | subsystems/jobsystem/src/JobManager.cpp:181-220 | With one of two copies put off to the next cycle, they meet there |
| `StaleKicks.StaleKickBreaks` | subsystems/jobsystem/src/JobManager.cpp:53-164 | After any kick of a held synchronous job some continuation without further kicks, respecting the mutexes and with every job ready, leaves a phase with a live run |
| `StaleKicks.SingleIsSafe` | subsystems/jobsystem/src/JobManager.cpp:53-164 | Without such a kick no continuation without kicks does, whether or not it respects the mutexes |
| `StaleKicks.FreshKickIff` | subsystems/jobsystem/src/JobManager.cpp:53-121 | A kick is safe in every continuation without further kicks, and as well in every lawful one, if and only if the job is asynchronous or not held |
| `StaleKicks.FreshRunIff` | subsystems/jobsystem/src/JobManager.cpp:53-220 | A run that respects the mutexes is safe at every point, in either sense, if and only if all its kicks are fresh |
| `JobLifecycle.RequeuesAreComplete` | subsystems/jobsystem/src/BoostFiberExecution.cpp:37-44 | When InvokeCycleAndWait has returned, every synchronous run of the cycle has ended, and one that did not dispose its job and was not detached has it in the next-cycle queue exactly once |
| `JobLifecycle.DetachCallDetaches` | subsystems/jobsystem/src/JobManager.cpp:265-283 | After DetachJob no queue holds the id and every queue is what it was without the jobs of that id |
| `JobLifecycle.DetachSticks` | subsystems/jobsystem/src/JobManager.cpp:168-171 | In every run without another kick of the id, in which no run of it may still ask to be requeued when the blacklist is cleared: no queue holds it again, no later run executes it, and runs in flight end without requeueing |
| `JobLifecycle.OrderlyRunsClearLate` | subsystems/jobsystem/src/JobManager.cpp:173-222 | Runs that meet the conditions of the barrier meet that one for synchronous jobs |
| `DetachLimits.ClearingIsSafeIff` | subsystems/jobsystem/src/JobManager.cpp:168-171 | When the blacklist is cleared, a detached id stays away in every continuation without another kick of it if and only if no run of it may still ask to be requeued |
| `JobLifecycle.SelfKickBreaksTheBarrier` | subsystems/jobsystem/src/Job.cpp:65-72 | A reachable state in which the first phase is being left although a synchronous run of it has not started |
| `JobModel.WithoutSplits` | subsystems/jobsystem/src/JobManager.cpp:245-263 | Sweeping a queue loses nothing and makes nothing up; exactly the jobs with another id stay |
| `JobModel.WithoutKeepsOrder` | subsystems/jobsystem/src/JobManager.cpp:245-263 | The jobs left stand at strictly increasing positions of the old queue |
| `JobModel.KeptPositions` | subsystems/jobsystem/src/JobManager.cpp:245-263 | Those positions are exactly those of jobs with another id |
| `JobManagers.JobManager.KickJob` | subsystems/jobsystem/src/JobManager.cpp:53-121 | Takes the id off the blacklist; queues the job outside its phase, offers the whole queue inside it; other phases untouched |
| `JobManagers.JobManager.ScheduleAllJobsInQueue` | subsystems/jobsystem/src/JobManager.cpp:123-149 | Empties one queue, offering its jobs in order; all other state unchanged |
| `JobManagers.JobManager.KickJobForNextCycle` | subsystems/jobsystem/src/JobManager.cpp:228-243 | Appends to the next-cycle queue unless the id is blacklisted |
| `JobManagers.JobManager.DrainNextCycleQueue` | subsystems/jobsystem/src/JobManager.cpp:178-188 | Clears the blacklist and puts every waiting job into the queue of its phase, scheduling none |
| `JobManagers.JobManager.TryRemoveJobWithIdFromQueue` | subsystems/jobsystem/src/JobManager.cpp:245-263 | The queue without the jobs of one id |
| `JobManagers.JobManager.DetachJob` | subsystems/jobsystem/src/JobManager.cpp:265-283 | Blacklists the id and sweeps it out of all four queues; nothing else changes |
| `JobManagers.OfferAllSchedules` | subsystems/jobsystem/src/JobManager.cpp:127-148 | A scheduling pass schedules exactly the ready jobs, in queue order |
| `JobManagers.OfferAllDefers` | subsystems/jobsystem/src/JobManager.cpp:131-136 | Jobs not ready wait for the next cycle, in order, unless blacklisted |
| `JobManagers.OfferAllCounts` | subsystems/jobsystem/src/JobManager.cpp:138-142 | Exactly the scheduled synchronous jobs raise the phase counter |
| `JobManagers.OfferingSplits` | subsystems/jobsystem/src/JobManager.cpp:127-148 | Scheduled, deferred and stopped jobs together are the jobs offered |
| `JobManagers.AdmittedMeans` | subsystems/jobsystem/src/JobManager.cpp:133-144 | Scheduled are exactly the jobs that answer that they are ready |
| `JobManagers.DeferredMeans` | subsystems/jobsystem/src/JobManager.cpp:133-136 | Put off are exactly those that answer no and are not blacklisted |
| `JobManagers.SynchronousMeans` | subsystems/jobsystem/src/JobManager.cpp:139-142 | Counted are exactly the synchronous ones |
| `JobManagers.DrainAllMeans` | subsystems/jobsystem/src/JobManager.cpp:181-188 | After the drain each phase queue is followed by the waiting jobs of that phase, in their order |
| `JobManagers.PhasesPartition` | subsystems/jobsystem/src/JobManager.cpp:75-118 | The phases partition the waiting jobs, so each is offered exactly once |
| `JobManagers.PhasesStable` | subsystems/jobsystem/src/JobManager.cpp:181-188 | The partition keeps the order within a phase |
| `JobManagers.DrainOffersInOrder` | subsystems/jobsystem/src/JobManager.cpp:181-188 | Over runs of the machine: when the cycle begins, the waiting jobs stand in the queues of their phases, each once and in order, before any requeued meanwhile |
| `JobManagers.ScheduleAllIsUndisturbedLoop` | subsystems/jobsystem/src/JobManager.cpp:123-149 | The method's pass is the machine's loop run without interruption |
| `JobManagers.UndisturbedLoopCounts` | subsystems/jobsystem/src/JobManager.cpp:138-142 | and that loop raises counter and counter queue by the same synchronous jobs |
| `JobCounters.JobCounter.Decrease` | subsystems/jobsystem/include/jobsystem/synchronization/JobCounter.h:52-56 | Lowers a positive count by one |
| `JobCounters.JobCounter.IsFinished` | subsystems/jobsystem/include/jobsystem/synchronization/JobCounter.h:58-61 | True exactly at zero |
| `JobCounters.Job.AddCounter` | subsystems/jobsystem/src/Job.cpp:54-58 | Raises the counter and appends it to the job's queue |
| `JobCounters.Job.FinishJob` | subsystems/jobsystem/src/Job.cpp:65-72 | Lowers every counter by its number of entries and empties the queue; a repeated call changes nothing |
| `JobCounters.Job.Execute` | subsystems/jobsystem/src/Job.cpp:20-52 | A job that throws is failed and disposed, else its continuation counts |
| `JobCounters.Heap.Attach` | subsystems/jobsystem/src/Job.cpp:54-58 | On a heap of jobs and counters, attaching keeps every counter equal to its occurrences |
| `JobCounters.Heap.Finish` | subsystems/jobsystem/src/Job.cpp:65-72 | Finishing keeps it too, so no decrease underflows |
| `JobCounters.Heap.IsFinished` | subsystems/jobsystem/include/jobsystem/synchronization/JobCounter.h:58-61 | Finished if and only if the counter occurs in no job's queue |
| `JobCounters.OccurrencesUpdate` | subsystems/jobsystem/src/Job.cpp:54-72 | Changing one job's queue changes the occurrences of a counter by the difference |
| `JobCounters.OccursNowhere` | subsystems/jobsystem/src/Job.cpp:54-72 | No occurrences if and only if no queue holds the counter |
| `RecursiveLock.StepKeepsInv` | subsystems/jobsystem/src/BoostFiberRecursiveSpinLock.cpp:21-94 | The invariant survives every atomic access of every actor |
| `RecursiveLock.StepRefines` | subsystems/jobsystem/src/BoostFiberRecursiveSpinLock.cpp:21-94 | Every access is an operation of an abstract recursive mutex or leaves it unchanged |
| `RecursiveLock.UnlockBranchIsRight` | subsystems/jobsystem/src/BoostFiberRecursiveSpinLock.cpp:30-43 | unlock releases exactly at depth one and steps down otherwise |
| `RecursiveLock.AssertionsAlwaysHold` | subsystems/jobsystem/src/BoostFiberRecursiveSpinLock.cpp:24-28 | Every debug assertion of try_lock and unlock holds when reached |
| `RecursiveLock.AtMostOneHolds` | subsystems/jobsystem/src/BoostFiberRecursiveSpinLock.cpp:63-94 | Two actors with positive depth are the same |
| `RecursiveLock.RecordIsExact` | subsystems/jobsystem/src/BoostFiberRecursiveSpinLock.cpp:86-91 | With the info mutex free, owner record and count tell each actor's depth |
| `RecursiveLock.HolderReenters` | subsystems/jobsystem/src/BoostFiberRecursiveSpinLock.cpp:65-81 | The holder's try_lock goes the reentrant way and never waits for itself |
| `RecursiveLock.TryLockAlone` | subsystems/jobsystem/src/BoostFiberRecursiveSpinLock.cpp:63-94 | Whatever the other actors are in the middle of, a try_lock run undisturbed is granted or denied as the abstract mutex says; a free lock is taken |
| `RecursiveLock.UnlockAlone` | subsystems/jobsystem/src/BoostFiberRecursiveSpinLock.cpp:21-44 | An unlock run undisturbed takes one level off |
| `RecursiveLock.CallEnds` | subsystems/jobsystem/src/BoostFiberRecursiveSpinLock.cpp:63-94 | In every interleaving a try_lock ends with one more lock to its credit, or at a moment when another actor holds the lock |
| `RecursiveLock.GoGetsOn` | subsystems/jobsystem/src/BoostFiberRecursiveSpinLock.cpp:21-94 | Every access brings its call nearer to its end |
| `RecursiveLock.EveryRunIsSafe` | subsystems/jobsystem/src/BoostFiberRecursiveSpinLock.cpp:21-94 | Assertions, mutual exclusion and the exact record in every interleaving of balanced calls, the window between clearing flag and record included |
| `RecursiveLock.RecursiveSpinLock.TryLock` | subsystems/jobsystem/src/BoostFiberRecursiveSpinLock.cpp:63-94 | An undisturbed call is the abstract try_lock |
| `RecursiveLock.RecursiveSpinLock.Unlock` | subsystems/jobsystem/src/BoostFiberRecursiveSpinLock.cpp:21-44 | An undisturbed call by the holder is the abstract unlock |
| `Ownership.StepKeepsInv` | subsystems/common/include/common/memory/ExclusiveOwnership.h:78-121 | After every atomic step, those inside a borrow included, each borrow count is the number of live borrowers of its state |
| `Ownership.OwnershipIsExclusive` | subsystems/common/include/common/memory/ExclusiveOwnership.h:514-531 | At most one owner holds a shared state |
| `Ownership.BorrowReachesSubject` | subsystems/common/include/common/memory/ExclusiveOwnership.h:117-121 | A borrower of a living state dereferences to the object the state was made for |
| `Ownership.BorrowsAreStable` | subsystems/common/include/common/memory/ExclusiveOwnership.h:117-121 | The same for every borrower through any chain of moves in any run without a borrow through a reference under way in a destructor's window |
| `Ownership.StepKeepsSubjects` | subsystems/common/include/common/memory/ExclusiveOwnership.h:514-531 | No step changes what a state was made for or which state a borrower belongs to |
| `OwnershipCalls.OwnerLends` | subsystems/common/include/common/memory/ExclusiveOwnership.h:78-90 | Borrowing from an owner makes one borrower more, counted, that reaches what the owner owns |
| `OwnershipCalls.CopyLends` | subsystems/common/include/common/memory/ExclusiveOwnership.h:93-111 | So does copying a borrower |
| `OwnershipCalls.DropReturns` | subsystems/common/include/common/memory/ExclusiveOwnership.h:113-115 | Dropping a borrower takes one off the count |
| `OwnershipCalls.ReferenceLends` | subsystems/common/include/common/memory/ExclusiveOwnership.h:265-293 | TryBorrow and Borrow on a reference to a living state, run undisturbed, make one borrower more |
| `OwnershipCalls.MoveHands` | subsystems/common/include/common/memory/ExclusiveOwnership.h:514-531 | A move hands over state and object, empties the old owner, and no borrower notices |
| `OwnershipCalls.DestructorAlone` | subsystems/common/include/common/memory/ExclusiveOwnership.h:545-556 | A destructor waits while there are borrowers; without any it ends with the state dead |
| `Ownership.NoBorrowerOutlivesIff` | subsystems/common/include/common/memory/ExclusiveOwnership.h:545-556 | Over whole runs: every borrower has a living owner throughout, and after the borrows under way at the end, if and only if every destructor stores at a count of zero with no borrow between its last read and its increment |
| `Ownership.CalmRunsDieClean` | subsystems/common/include/common/memory/ExclusiveOwnership.h:545-556 | No borrow through a reference under way from the last read to the store implies that |
| `BorrowWindows.CalmIff` | subsystems/common/include/common/memory/ExclusiveOwnership.h:265-293 | A step leaves every borrower safe, until a destructor next reads zero or a borrow through a reference next begins, if and only if no such borrow is under way in a destructor's window |
| `BorrowWindows.CalmRunIff` | subsystems/common/include/common/memory/ExclusiveOwnership.h:545-556 | A run never puts a borrower in danger if and only if all its steps are of that kind |
| `Ownership.DeathIsFinal` | subsystems/common/include/common/memory/ExclusiveOwnership.h:265-307 | Dead without borrowers or borrows past their last read stays so in every continuation: CanBorrow false, TryBorrow returns nothing, Borrow throws, and so does a TryBorrow already past its first read |
| `Ownership.DeathIsCleanIff` | subsystems/common/include/common/memory/ExclusiveOwnership.h:550-554 | The store leaves such a state exactly when the count is zero and no borrow is past its last read |
| `OwnershipRuns.BorrowInTheWindowDangles` | subsystems/common/include/common/memory/ExclusiveOwnership.h:265-275 | A run in which a borrow between read and store leaves a borrower without owner |
| `OwnershipRuns.LateIncrementDangles` | subsystems/common/include/common/memory/ExclusiveOwnership.h:278-293 | A run in which one does that began before the last read and increments after the store |
| `OwnershipRuns.TryBorrowMayThrow` | subsystems/common/include/common/memory/ExclusiveOwnership.h:265-297 | A run in which TryBorrow throws |
| `OwnershipObjects.Owner.MoveFrom` | subsystems/common/include/common/memory/ExclusiveOwnership.h:514-531 | Takes over state and object; the old owner is emptied, the borrow count untouched |
| `OwnershipObjects.Owner.Destroy` | subsystems/common/include/common/memory/ExclusiveOwnership.h:545-556 | One turn of the wait: nothing happens while there are borrowers, else the state is marked dead and the wait is over |
| `OwnershipObjects.Borrower.Dereference` | subsystems/common/include/common/memory/ExclusiveOwnership.h:117-121 | Yields the object of the state's present owner |
| `OwnershipObjects.Borrower.Drop` | subsystems/common/include/common/memory/ExclusiveOwnership.h:113-115 | Lowers the borrow count by one |
| `OwnershipObjects.Reference.TryBorrow` | subsystems/common/include/common/memory/ExclusiveOwnership.h:265-293 | A borrower and a count raised by one if alive, nothing otherwise |
| `OwnershipObjects.MoveWhileBorrowed` | subsystems/common/include/common/memory/ExclusiveOwnership.h:514-531 | A borrower taken before a move reads the same object after it |
| `Text.FindFirst` | subsystems/networking/src/messaging/MultipartFormdata.cpp:23-35 | A match with no earlier match is the one found |
| `Multipart.GenerateMultipartFormData` | subsystems/networking/src/messaging/MultipartFormdata.cpp:7-20 | The loop writes the parts in the order of iteration, then the closing delimiter |
| `Multipart.ParseFormPart` | subsystems/networking/src/messaging/MultipartFormdata.cpp:22-45 | Enters a part under its quoted name, or leaves the result alone without blank line, name or closing quote |
| `Multipart.ParseMultipartFormData` | subsystems/networking/src/messaging/MultipartFormdata.cpp:47-72 | The loop over positions is the recursion over the remaining text |
| `Multipart.CutAtDelimiter` | subsystems/networking/src/messaging/MultipartFormdata.cpp:58-66 | A body without delimiter, followed by one, is cut exactly there |
| `Multipart.FormPartOfBody` | subsystems/networking/src/messaging/MultipartFormdata.cpp:13-41 | A generated part with a proper name is read back as it was |
| `Multipart.DecodedIsCarriable` | subsystems/networking/src/messaging/MultipartFormdata.cpp:47-72 | Whatever is parsed has proper names and contents, for every text |
| `Multipart.DecodeEncoded` | subsystems/networking/src/messaging/MultipartFormdata.cpp:7-72 | Parsing generated text enters exactly the generated parts |
| `Multipart.RoundTripIff` | subsystems/networking/src/messaging/MultipartFormdata.cpp:7-72 | parse(generate(m)) = m if and only if every part is under its name and name and content are proper |
| `Multipart.Normalisation` | subsystems/networking/src/messaging/MultipartFormdata.cpp:22-72 | parse(generate(parse(d))) = parse(d) for every text d |
| `Multipart.GeneratedText` | subsystems/networking/src/messaging/MultipartFormdata.cpp:11-17 | The generated text of a part, spelled out |
| `Multipart.DecodePieces` | subsystems/networking/src/messaging/MultipartFormdata.cpp:53-69 | After its first boundary a text is cut at its delimiters; the pieces between are entered in order, later ones over earlier ones of the same name, and the last piece is not read |
| `Multipart.EveryTextHasPieces` | subsystems/networking/src/messaging/MultipartFormdata.cpp:53-69 | Every text has such pieces, or no boundary and then no parts |
| `Multipart.WrittenIsRead` | subsystems/networking/src/messaging/MultipartFormdata.cpp:22-44 | A piece with a blank line and, before it, name= and a quoted name is entered with that name and what follows the blank line |
| `Multipart.ReadIsWritten` | subsystems/networking/src/messaging/MultipartFormdata.cpp:22-44 | and every piece that is entered is of that form |
| `Decimal.StoiOfToString` | subsystems/services/src/remote/RemoteServiceMessagesConverter.cpp:27-28 | Reading the decimal print of any int gives that int |
| `Decimal.StoiReads` | subsystems/services/src/remote/RemoteServiceMessagesConverter.cpp:27-28 | Read is the number that the digits after white space and a sign denote, if there are any and it is in range, else nothing |
| `Decimal.EveryStringIsShaped` | subsystems/services/src/remote/RemoteServiceMessagesConverter.cpp:27-28 | which covers every string |
| `Decimal.ToStringDenotes` | subsystems/services/src/remote/RemoteServiceMessagesConverter.cpp:104-105 | Printed are a minus sign for negative numbers and digits that denote the magnitude |
| `Messages.ToPartsMeans` | subsystems/networking/src/messaging/MessageConverter.cpp:67-83 | One part for each attribute, and the printed meta part unless an attribute takes its place |
| `Messages.ToMultipartFormData` | subsystems/networking/src/messaging/MessageConverter.cpp:62-86 | The text of the meta part and one part per attribute |
| `Messages.ExtractPartContent` | subsystems/networking/src/messaging/MessageConverter.cpp:88-98 | Takes a part out of the map, or fails |
| `Messages.FromMultipartFormData` | subsystems/networking/src/messaging/MessageConverter.cpp:100-138 | In terms of the parsed parts, each an if-and-only-if: success, meta part missing, malformed, incomplete, a null message returned or dereferenced; on success type and id are those of the meta part up to NUL and the attributes are the other parts |
| `Messages.MetalessIsRefused` | subsystems/networking/src/messaging/MessageConverter.cpp:88-98 | The text of parts without a meta part is refused |
| `Messages.AttributesArriveIff` | subsystems/networking/src/messaging/MessageConverter.cpp:62-138 | Attributes arrive unchanged if and only if none is named meta and all names and contents are proper; type and id then arrive up to their first NUL |
| `Messages.MessageArrivesIff` | subsystems/networking/src/messaging/MessageConverter.cpp:62-138 | The whole message arrives if and only if, besides, type and id contain no NUL |
| `Messages.FromServiceRequest` | subsystems/services/src/remote/RemoteServiceMessagesConverter.cpp:50-64 | "transaction-id" and "service" hold transaction and service, every other attribute is the parameter of that name, and there are no others |
| `Messages.ToServiceRequest` | subsystems/services/src/remote/RemoteServiceMessagesConverter.cpp:66-91 | A request exactly if "transaction-id" and "service" are there, made of them, with all attributes as parameters |
| `Messages.RequestArrivesIff` | subsystems/services/src/remote/RemoteServiceMessagesConverter.cpp:50-91 | The whole wire trip of a request yields its service, transaction id and attributes if and only if they can be sent |
| `Messages.ParametersSurvive` | subsystems/services/src/remote/RemoteServiceMessagesConverter.cpp:55-61 | Parameters without reserved names are all found again, and exactly two keys are added |
| `Messages.FromServiceResponse` | subsystems/services/src/remote/RemoteServiceMessagesConverter.cpp:93-109 | "transaction-id", "status" and "status-message" hold transaction, decimal status and message, every other attribute is the result of that name, and there are no others |
| `Messages.ToServiceResponse` | subsystems/services/src/remote/RemoteServiceMessagesConverter.cpp:8-48 | A response exactly if "transaction-id" is there and "status" can be read, made of them, with all attributes as results; a missing status message becomes "Ok" |
| `Messages.ResponseArrivesIff` | subsystems/services/src/remote/RemoteServiceMessagesConverter.cpp:8-48 | The whole wire trip of a response yields transaction id, status, message and attributes if and only if they can be sent |
| `Messages.ResultsSurvive` | subsystems/services/src/remote/RemoteServiceMessagesConverter.cpp:98-106 | Results without reserved names are all found again, and exactly three keys are added |
| `RoundRobin.RoundRobinServiceCaller.AddExecutor` | subsystems/services/src/RoundRobinServiceCaller.cpp:28-50 | Appends unless the id is known; ids stay unique |
| `RoundRobin.RoundRobinServiceCaller.RemoveExecutor` | subsystems/services/src/RoundRobinServiceCaller.cpp:59-71 | Exactly the executors with another id are left, in order; ids stay unique |
| `RoundRobin.KeptPositions` | subsystems/services/src/RoundRobinServiceCaller.cpp:65-71 | The positions kept are those of executors with another id |
| `RoundRobin.WithoutIdKeepsOrder` | subsystems/services/src/RoundRobinServiceCaller.cpp:65-71 | Those left stand at those positions, in increasing order |
| `RoundRobin.WithoutIdKeepsUnique` | subsystems/services/src/RoundRobinServiceCaller.cpp:65-71 | Removal keeps ids unique |
| `RoundRobin.RoundRobinServiceCaller.SelectNextCallableExecutor` | subsystems/services/src/RoundRobinServiceCaller.cpp:180-205 | The loop's answer and the new last index |
| `RoundRobin.SelectsNextEligible` | subsystems/services/src/RoundRobinServiceCaller.cpp:180-205 | The first eligible executor in cyclic order after the clamped last index; none exactly when none is eligible |
| `RoundRobin.SelectByRank` | subsystems/services/src/RoundRobinServiceCaller.cpp:186-200 | The choice is the next entry in the list of eligible executors |
| `RoundRobin.RankAfterRank` | subsystems/services/src/RoundRobinServiceCaller.cpp:186-193 | From the entry of rank r selection goes to rank r + 1, from the last to the first |
| `RoundRobin.PickIsRanked` | subsystems/services/src/RoundRobinServiceCaller.cpp:180-205 | The n-th of a series of calls picks the rank n steps on |
| `RoundRobin.EveryRoundIsComplete` | subsystems/services/src/RoundRobinServiceCaller.cpp:180-205 | Any k consecutive calls, k eligible executors, pick each exactly once |
| `RoundRobin.SelectionIsFair` | subsystems/services/src/RoundRobinServiceCaller.cpp:180-205 | Over any number of calls the counts of two eligible executors differ by at most one |
| `CallRetry.IssueCall` | subsystems/services/src/RoundRobinServiceCaller.cpp:96-178 | The chain of jobs resolves and calls what its specification says, and ends |
| `CallRetry.SelectedIff` | subsystems/services/src/RoundRobinServiceCaller.cpp:101-103 | An attempt that selects gets an executor if and only if one is eligible, and an eligible one |
| `CallRetry.ChainComesTo` | subsystems/services/src/RoundRobinServiceCaller.cpp:96-163 | Attempt k is issued if and only if all before it were BUSY with retries left and none that selects was without eligible executor; the last attempt or selection decides the outcome |
| `CallRetry.CallComesTo` | subsystems/services/src/RoundRobinServiceCaller.cpp:96-163 | With m attempts issued, each an if-and-only-if: delivered is the answer of attempt m with the number m, unless it is retried; failed if attempt m threw; no callable service if the selection for the next attempt had nobody; unresolved if attempt m never ends |
| `CallRetry.OkIsDelivered` | subsystems/services/src/RoundRobinServiceCaller.cpp:136-137 | An OK answer at an issued attempt is delivered with the number of that attempt |
| `CallRetry.ChainIsBounded` | subsystems/services/src/RoundRobinServiceCaller.cpp:117-133 | At most max_retries + 1 attempts; resolved at most once, exactly once if every attempt completes |
| `CallRetry.DeliveredReportsAttempts` | subsystems/services/src/RoundRobinServiceCaller.cpp:136-137 | A delivered response reports the attempts made, all earlier ones were BUSY, and BUSY is delivered only after the last retry |
| `CallRetry.RetriesStay` | subsystems/services/src/RoundRobinServiceCaller.cpp:123-129 | Without try_next_executor all attempts go to one executor |
| `CallRetry.RetriesMoveOn` | subsystems/services/src/RoundRobinServiceCaller.cpp:101-103 | With it each attempt goes to the executor selected for it |
| `CallRetry.UndisturbedRetriesDiffer` | subsystems/services/src/RoundRobinServiceCaller.cpp:123-129 | and, undisturbed, no executor is asked again before every other eligible one was |
| `Capacity.StepKeepsInv` | subsystems/services/src/LocalServiceExecutor.cpp:33-75 | Counter = admitted and unreleased calls, within a positive capacity, after every step, although releases take no lock |
| `Capacity.CapacityIsSafe` | subsystems/services/src/LocalServiceExecutor.cpp:33-75 | The same for every interleaving of any number of calls |
| `Capacity.EveryCallSettles` | subsystems/services/src/LocalServiceExecutor.cpp:35-75 | An ended call resolved its promise once: with BUSY exactly when capacity-many calls were in flight at its comparison, with the result exactly when the service function returned, as failed exactly when it threw; and it gave back the slot it took |
| `Capacity.AllSlotsReturn` | subsystems/services/src/LocalServiceExecutor.cpp:50-73 | When all calls have ended the counter is zero |
| `Capacity.NoDeadlock` | subsystems/services/src/LocalServiceExecutor.cpp:34-51 | Some call can go on while one has not ended |
| `Capacity.GoGetsOn` | subsystems/services/src/LocalServiceExecutor.cpp:31-76 | Every step of a call brings it nearer to its end and moves no other |
| `Capacity.LocalServiceExecutor.constructor` | subsystems/services/src/LocalServiceExecutor.cpp:10-15 | The size_t capacity narrows to 32 bits; zero or negative means no limit |
| `Capacity.LocalServiceExecutor.Admit` | subsystems/services/src/LocalServiceExecutor.cpp:34-51 | BUSY and no change when full, else one more |
| `Capacity.ExecuteCall` | subsystems/services/src/LocalServiceExecutor.cpp:31-76 | A call by itself answers BUSY exactly when full and leaves the counter as it was |
| `PendingRequests.StepKeepsInv` | subsystems/services/src/remote/RemoteServiceResponseConsumer.cpp:33-157 | Shape of table, handlers, marks and promises after every step |
| `PendingRequests.StepAccounts` | subsystems/services/src/remote/RemoteServiceResponseConsumer.cpp:33-157 | A step adds to what a promise is or will be resolved with exactly the outcome it takes it for |
| `PendingRequests.StepWaits` | subsystems/services/src/remote/RemoteServiceResponseConsumer.cpp:140-157 | An attempt stops waiting exactly by such a taking step, or by losing its entry to another attempt of its transaction |
| `PendingRequests.TriedOncePlusLate` | subsystems/services/src/remote/RemoteServiceResponseConsumer.cpp:33-157 | Retries under the same id included: resolving a settled promise was tried once, plus once if sending failed late, less once if its entry was lost, with the outcomes taken |
| `PendingRequests.FirstTakerResolves` | subsystems/services/src/remote/RemoteServiceResponseConsumer.cpp:33-157 | Tried exactly once if and only if late failures equal losses, and without either by the first step that took it |
| `PendingRequests.UnmixedResolvedOnce` | subsystems/services/src/remote/RemoteServiceResponseConsumer.cpp:33-157 | If no failed send is handled while a later attempt is waiting: tried exactly once if and only if sending did not fail late, by the first step that took it |
| `PendingRequests.SoleIsUnmixed` | subsystems/services/src/remote/RemoteServiceResponseConsumer.cpp:140-145 | Transactions sent once always meet that condition |
| `PendingRequests.TakenIsReal` | subsystems/services/src/remote/RemoteServiceResponseConsumer.cpp:98-117 | An outcome stems from a response with that id, a closed connection to an endpoint an attempt of that transaction went to, or a failure to send |
| `PendingRequests.CloseAffectsIff` | subsystems/services/src/remote/RemoteServiceResponseConsumer.cpp:95-121 | A handler run changes an attempt if and only if that attempt is in the table under the handler's transaction and the closed endpoint is the handler's |
| `PendingRequests.CloseAffectsItsOwn` | subsystems/services/src/remote/RemoteServiceResponseConsumer.cpp:95-121 | So an attempt whose transaction was sent once is left alone unless its own endpoint is closed |
| `PendingRequests.ResponseAffectsItsOwn` | subsystems/services/src/remote/RemoteServiceResponseConsumer.cpp:33-75 | A response changes the attempt in the table under its id and no other |
| `PendingRequests.AssertionsHold` | subsystems/services/src/remote/RemoteServiceResponseConsumer.cpp:141-144 | Under the condition on failed sends, an inserted attempt finds no entry of its transaction, and a pending request is marked |
| `PendingRequests.MarkedUnlessAnswered` | subsystems/services/src/remote/RemoteServiceResponseConsumer.cpp:71-73 | A request sent once is marked exactly as long as closed connections are all it was resolved with |
| `PendingRequests.AnswerResolves` | subsystems/services/src/remote/RemoteServiceResponseConsumer.cpp:33-75 | The usual run: a response resolves the promise, takes off the mark and leaves nothing behind |
| `PendingRequests.LateFailureTriesTwice` | subsystems/services/src/remote/RemoteServiceExecutor.cpp:104-124 | A run that tries to resolve one promise twice; the second try throws |
| `PendingRequests.StaleHandlerCancelsRetry` | subsystems/services/src/RoundRobinServiceCaller.cpp:108-131 | A run in which closing the first endpoint cancels the retry sent to a second |
| `PendingRequests.LateFailureLosesRetry` | subsystems/services/src/remote/RemoteServiceExecutor.cpp:104-124 | A run in which nobody ever tries to resolve a retry |
| `ResponseConsumer.RemoteServiceResponseConsumer.AddResponsePromise` | subsystems/services/src/remote/RemoteServiceResponseConsumer.cpp:140-145 | One new entry, the rest unchanged |
| `ResponseConsumer.RemoteServiceResponseConsumer.RemoveResponsePromise` | subsystems/services/src/remote/RemoteServiceResponseConsumer.cpp:148-158 | The promise of that id, if any, and the table without it |
| `ResponseConsumer.RemoteServiceResponseConsumer.ProcessReceivedMessage` | subsystems/services/src/remote/RemoteServiceResponseConsumer.cpp:17-76 | Unknown or malformed responses change nothing; a known one resolves its promise, unmarks its request and removes its entry, and no other |
| `ResponseConsumer.OnConnectionClosed` | subsystems/services/src/remote/RemoteServiceResponseConsumer.cpp:95-121 | Only for the request's own endpoint: entry removed and its promise resolved; all other promises unchanged |
| `PropertyPaths.GetSubpaths` | subsystems/properties/src/PropertyProvider.cpp:21-39 | The loop enumerates the cuts before each delimiter from index 1 on, then the path |
| `PropertyPaths.SubpathsAreThoseAbove` | subsystems/properties/src/PropertyProvider.cpp:21-39 | A path is enumerated once if it is the key or a non-empty prefix ending before a dot, and never otherwise |
| `PropertyPaths.SubpathsGrow` | subsystems/properties/src/PropertyProvider.cpp:21-39 | They are enumerated from the top down to the key |
| `PropertyPaths.TopicsDiffer` | subsystems/properties/src/PropertyProvider.cpp:41-45 | Different paths have different topics |
| `EventBroker.JobBasedEventBroker.HasListener` | subsystems/events/src/JobBasedEventBroker.cpp:91-104 | True exactly if a living subscriber of the topic has that id |
| `EventBroker.JobBasedEventBroker.RegisterListener` | subsystems/events/src/JobBasedEventBroker.cpp:106-116 | Appends unless a living subscriber has that id |
| `EventBroker.JobBasedEventBroker.FireEvent` | subsystems/events/src/JobBasedEventBroker.cpp:56-89 | One job per living subscriber, in order |
| `EventBroker.JobBasedEventBroker.CleanUpSubscribers` | subsystems/events/src/JobBasedEventBroker.cpp:42-54 | Exactly the living subscribers stay, in every topic, and no topic goes |
| `Notifications.PropertyProvider.NotifyListenersAboutChange` | subsystems/properties/src/PropertyProvider.cpp:77-89 | The jobs of one event per sub-path, in order |
| `Notifications.NotifiedEntries` | subsystems/properties/src/PropertyProvider.cpp:77-89 | One job per living entry of a path covering the key, none for other paths |
| `Notifications.JobsCarryKey` | subsystems/properties/src/PropertyProvider.cpp:82-84 | Every job of a notification carries the key that was set, whatever path its event is fired for, and is for a living listener |
| `Notifications.FiredCarryKey` | subsystems/properties/src/PropertyProvider.cpp:82-84 | The same for notifications fired event by event |
| `Notifications.NewListenerHears` | subsystems/properties/src/PropertyProvider.cpp:47-55 | A new listener registered on a path hears of every key the path covers |
| `Notifications.StepKeepsInv` | subsystems/events/src/JobBasedEventBroker.cpp:106-116 | A living listener has at most one entry per topic |
| `Notifications.NotifiedIffCovered` | subsystems/properties/src/PropertyProvider.cpp:77-89 | After any run, an uninterrupted notification creates exactly one job for a living subscriber of p if p covers the key, none otherwise |
| `Notifications.FireReachesSubscribers` | subsystems/properties/src/PropertyProvider.cpp:82-89 | One event creates one job for a listener on p exactly if it is of path p and the listener is subscribed at that moment |
| `Notifications.FiresEachOnce` | subsystems/properties/src/PropertyProvider.cpp:80-89 | Whatever happens between its events, a notification fires each path above its key once and no other |
| `Notifications.InterruptedNotification` | subsystems/properties/src/PropertyProvider.cpp:77-89 | A finished notification created one job for a listener on p if p covers the key and the listener was subscribed when that event was fired, none otherwise |
| `Notifications.NotifiedIffRegistered` | subsystems/events/src/JobBasedEventBroker.cpp:56-116 | The same in terms of the calls made: a living listener with an id of its own is notified if and only if it was registered on a covering path |
| `Notifications.CleanUpChangesNothing` | subsystems/events/src/JobBasedEventBroker.cpp:42-54 | Runs with and without their clean-ups, those between two events of a notification included, create the same jobs in the same order |

## Left out

- Networking I/O, renderers, plugins, logging, profiling, configuration, URL parsing: a received response and a closed connection are events of the model, nothing below them.
- JSON: a parameter that for the message at hand reads what it printed, starting with a brace and without a raw carriage return; the older ToJson/FromJson format is not modelled.
- Fiber scheduling, the capacity of the job channel, shutdown, weak memory order and liveness that needs a fair scheduler; atomics are sequentially consistent, and spinning is repeated single attempts.
- JobState after scheduling: it is written without synchronisation, so no claim rests on it.
- Workload exceptions not derived from std::exception: the runner would skip FinishJob.
- Mutexes that the source holds across several sections (of the queues, and of m_current_state while a kick schedules) are not enforced in `Scheduler`, so it has more interleavings than the program, and the safety results hold without them; `QueueLocks` says which runs respect them, and the continuations that `StaleKicks` exhibits do.
- The atomic read of the cycle state and of a job's readiness: IsReadyForExecution is an arbitrary boolean at every attempt, so timers are covered and not described.
- A thread outside the job system kicks in one atomic step and only jobs of a phase that is not running; into the running phase such a kick appears only as one made by an asynchronous run. Barrier runs exclude that case, in which the phase may end under the kick.
- JobLifecycle.DetachCallDetaches: the call is undisturbed and made while no other call is halfway with the id, because a check-then-push window in KickJobForNextCycle lets a half-done requeue through.
- JobManagers.DrainOffersInOrder: not while other threads kick or detach, or asynchronous jobs go on kicking, during the drain.
- StaleKicks.FreshKickIff: the breaking continuation chooses the order of steps within the mutexes and what workloads return (all dispose, but for the kicked job when a copy of it waits for the next cycle); it does not say how likely that is.
- Conversion of owners, borrowers and references to base classes, and EnableBorrowFromThis.
- OwnershipObjects.Owner.Destroy: one turn of the wait, undisturbed; the machine in `Ownership` has the two steps of the destructor.
- OwnershipRuns.LateIncrementDangles: the late borrow goes through the owner's memory after its destruction; the model only records that it counts on the state of the reference. Calls on an owner itself end before its destructor begins.
- RecursiveLock.RecursiveSpinLock.TryLock: no other actor in between; interleavings are the subject of the machine above it.
- Characters of the codec are any characters, of which bytes are a special case; the order of map iteration is an arbitrary enumeration of the keys.
- The conversion of a status number to the status type is the identity; the model of std::stoi includes leading white space, sign, trailing characters and the range error.
- Message ids, transaction ids and listener addresses are fresh values supplied by the caller; uuid generation is not modelled.
- CallRetry.IssueCall: waiting between retries and between issue and answer; what other calls do meanwhile is an arbitrary list and last index per attempt.
- IsCallable, GetCapacity and ContainsLocallyCallable of the service caller, which only read the list.
- PendingRequests.StepKeepsInv: handlers of removed entries may still run although their weak references have usually expired; failures before the request reaches the consumer are not modelled; a request is sent again only when it is not marked, as asserted at `subsystems/services/src/remote/RemoteServiceExecutor.cpp:72-76`.
- UnregisterListener and RemoveListenerFromTopic, whose erase leaves the loop's iterator invalid after an expired entry.
- The handler job's second look at whether its listener is still alive, and the subsystems being unavailable.
- The only_local branches of the service registries.
