/** Job and JobCounter objects: attaching counters, finishing jobs, and counter exactness on the heap. */
module JobCounters {
  import M = JobModel

  /** Number of unfinished jobs attached to it. */
  class JobCounter {
    var count: nat

    constructor ()
      ensures count == 0
    {
      count := 0;
    }

    method Increase()
      modifies this
      ensures count == old(count) + 1
    {
      count := count + 1;
    }

    // the source asserts a positive count here
    method Decrease()
      requires count > 0
      modifies this
      ensures count == old(count) - 1
    {
      count := count - 1;
    }

    method IsFinished() returns (finished: bool)
      ensures finished <==> count == 0
    {
      finished := count < 1;
    }
  }

  datatype JobState = Detached | InExecution | ExecutionFinished | Failed

  /** What running a workload comes to: a continuation, or an exception. */
  datatype WorkloadResult = Completed(continuation: M.Continuation) | Threw(what: string)

  class Job {
    var counters: seq<JobCounter>
    var state: JobState

    constructor ()
      ensures counters == [] && state == Detached
    {
      counters := [];
      state := Detached;
    }

    method AddCounter(counter: JobCounter)
      modifies this`counters, counter
      ensures counters == old(counters) + [counter] && counter.count == old(counter.count) + 1
    {
      counter.Increase();
      counters := counters + [counter];
    }

    /** Every entry of the counter queue lowers its counter once; the queue ends up empty. */
    method FinishJob()
      requires forall c :: c in counters ==> multiset(counters)[c] <= c.count
      modifies this`counters, set c | c in counters
      ensures counters == [] && state == old(state)
      ensures forall c :: c in old(counters) ==> c.count == old(c.count) - multiset(old(counters))[c]
    {
      ghost var all := counters;
      ghost var k := 0;
      while counters != []
        invariant 0 <= k <= |all| && counters == all[k..] && state == old(state)
        invariant forall c :: c in all ==> c.count == old(c.count) - multiset(all[..k])[c]
        decreases |counters|
      {
        var counter := counters[0];
        EntrySplits(all, k);
        counters := counters[1..];
        counter.Decrease();
        k := k + 1;
      }
      assert all[..k] == all;
    }

    /** A job that throws counts as failed and is not requeued. */
    method Execute(result: WorkloadResult) returns (continuation: M.Continuation)
      modifies this`state
      ensures result.Threw? ==> state == Failed && continuation == M.Dispose
      ensures result.Completed? ==> state == ExecutionFinished && continuation == result.continuation
    {
      state := InExecution;
      match result {
        case Completed(c) =>
          continuation := c;
          state := ExecutionFinished;
        case Threw(_) =>
          state := Failed;
          continuation := M.Dispose;
      }
    }
  }

  lemma EntrySplits(all: seq<JobCounter>, k: nat)
    requires k < |all|
    ensures multiset(all[..k + 1]) == multiset(all[..k]) + multiset{all[k]}
    ensures multiset(all[..k + 1]) <= multiset(all)
  {
    assert all[..k + 1] == all[..k] + [all[k]];
    assert all == all[..k + 1] + all[k + 1..];
  }

  /** How often a counter occurs in a collection of counter queues. */
  function Occurrences(queues: seq<seq<JobCounter>>, c: JobCounter): nat {
    if queues == [] then 0
    else Occurrences(queues[..|queues| - 1], c) + multiset(queues[|queues| - 1])[c]
  }

  lemma {:induction false} OccurrencesUpdate(queues: seq<seq<JobCounter>>, i: nat, q: seq<JobCounter>, c: JobCounter)
    requires i < |queues|
    ensures Occurrences(queues[i := q], c) + multiset(queues[i])[c] == Occurrences(queues, c) + multiset(q)[c]
  {
    var n := |queues| - 1;
    if i == n {
      assert queues[i := q][..n] == queues[..n];
    } else {
      assert queues[i := q][..n] == queues[..n][i := q];
      OccurrencesUpdate(queues[..n], i, q, c);
    }
  }

  /** A counter occurs nowhere exactly when no queue contains it. */
  lemma {:induction false} OccursNowhere(queues: seq<seq<JobCounter>>, c: JobCounter)
    ensures Occurrences(queues, c) == 0 <==> forall i :: 0 <= i < |queues| ==> c !in queues[i]
  {
    if queues == [] {
    } else {
      var n := |queues| - 1;
      OccursNowhere(queues[..n], c);
      assert forall i :: 0 <= i < n ==> queues[..n][i] == queues[i];
      assert c in multiset(queues[n]) <==> c in queues[n];
    }
  }

  lemma {:induction false} OccurrencesCover(queues: seq<seq<JobCounter>>, i: nat, c: JobCounter)
    requires i < |queues|
    ensures multiset(queues[i])[c] <= Occurrences(queues, c)
  {
    if i < |queues| - 1 {
      OccurrencesCover(queues[..|queues| - 1], i, c);
    }
  }

  /** The counter queues of a sequence of jobs, as a value. */
  function Queues(jobs: seq<Job>): (queues: seq<seq<JobCounter>>)
    reads set j | j in jobs
    ensures |queues| == |jobs| && forall i :: 0 <= i < |jobs| ==> queues[i] == jobs[i].counters
  {
    if jobs == [] then [] else Queues(jobs[..|jobs| - 1]) + [jobs[|jobs| - 1].counters]
  }

  /** Some jobs, all different, and the counters they may be attached to. */
  class Heap {
    const jobs: seq<Job>
    const counters: set<JobCounter>

    constructor (jobs: seq<Job>, counters: set<JobCounter>)
      requires forall i, k :: 0 <= i < k < |jobs| ==> jobs[i] != jobs[k]
      ensures this.jobs == jobs && this.counters == counters && Distinct()
    {
      this.jobs := jobs;
      this.counters := counters;
    }

    predicate Distinct() {
      forall i, k :: 0 <= i < k < |jobs| ==> jobs[i] != jobs[k]
    }

    /** Every counter equals the number of its occurrences in all jobs' counter queues. */
    ghost predicate Exact()
      reads (set j | j in jobs), counters
    {
      && Distinct()
      && (forall i, c :: 0 <= i < |jobs| && c in jobs[i].counters ==> c in counters)
      && (forall c :: c in counters ==> c.count == Occurrences(Queues(jobs), c))
    }

    method Attach(i: nat, counter: JobCounter)
      requires Exact() && i < |jobs| && counter in counters
      modifies jobs[i], counter
      ensures Exact() && jobs[i].counters == old(jobs[i].counters) + [counter]
    {
      ghost var before := Queues(jobs);
      jobs[i].AddCounter(counter);
      assert Queues(jobs) == before[i := before[i] + [counter]];
      forall c | c in counters ensures c.count == Occurrences(Queues(jobs), c) {
        OccurrencesUpdate(before, i, before[i] + [counter], c);
      }
    }

    /** Never underflows, keeps every counter exact, and does nothing the second time. */
    method Finish(i: nat)
      requires Exact() && i < |jobs|
      modifies jobs[i], counters
      ensures Exact() && jobs[i].counters == []
      ensures forall c :: c in counters && c !in old(jobs[i].counters) ==> c.count == old(c.count)
    {
      ghost var before, mine := Queues(jobs), jobs[i].counters;
      forall c | c in mine ensures multiset(mine)[c] <= c.count {
        OccurrencesCover(before, i, c);
      }
      jobs[i].FinishJob();
      assert forall c :: c in counters ==> c.count == old(c.count) - multiset(mine)[c];
      ghost var after := Queues(jobs);
      assert after == before[i := []];
      forall c | c in counters ensures c.count == Occurrences(after, c) {
        OccurrencesUpdate(before, i, [], c);
        hide Queues;
      }
    }

    /** A counter is finished exactly when no job still carries it. */
    method IsFinished(counter: JobCounter) returns (finished: bool)
      requires Exact() && counter in counters
      ensures finished <==> forall i :: 0 <= i < |jobs| ==> counter !in jobs[i].counters
    {
      OccursNowhere(Queues(jobs), counter);
      finished := counter.IsFinished();
    }
  }
}
