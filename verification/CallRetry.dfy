/** The chain of jobs by which RoundRobinServiceCaller resolves one call, retrying while executors are busy. */
module CallRetry {
  import opened Wrappers
  import opened RoundRobin

  /** How an issued attempt ends; Never means that its future does not become ready. */
  datatype Answer = Responded(busy: bool) | Threw | Never

  /** What the caller's promise is resolved with. */
  datatype Resolution = Delivered(busy: bool, attempts: nat) | CallFailed | NoCallableService

  datatype Policy = Policy(maxRetries: nat, tryNextExecutor: bool)

  /** What the n-th attempt meets: the executors and the last index when it selects, and the answer. Both
      may have been changed by other calls in between. */
  datatype Attempt = Attempt(executors: seq<Executor>, lastIndex: nat, answer: Answer)

  /** Resolutions of the promise, and the executors that were called, in order. */
  datatype Trace = Trace(resolutions: seq<Resolution>, called: seq<Executor>)

  function Selected(a: Attempt, onlyLocal: bool): Option<Executor> {
    match Select(a.executors, onlyLocal, a.lastIndex).0
    case None => None
    case Some(i) => if i < |a.executors| then Some(a.executors[i]) else None
  }

  function Chosen(a: Attempt, onlyLocal: bool, given: Option<Executor>): Option<Executor> {
    if given.Some? then given else Selected(a, onlyLocal)
  }

  /** The chain from attempt n on, when `given` is the executor handed down by the attempt before. */
  function Chain(world: nat -> Attempt, onlyLocal: bool, policy: Policy, given: Option<Executor>, n: nat): Trace
    decreases policy.maxRetries + 1 - n
  {
    match Chosen(world(n), onlyLocal, given)
    case None => Trace([NoCallableService], [])
    case Some(executor) =>
      match world(n).answer
      case Never => Trace([], [executor])
      case Threw => Trace([CallFailed], [executor])
      case Responded(busy) =>
        if busy && policy.maxRetries >= n then
          var handedOn := if policy.tryNextExecutor then None else Some(executor);
          Prepend([executor], Chain(world, onlyLocal, policy, handedOn, n + 1))
        else
          Trace([Delivered(busy, n)], [executor])
  }

  function Prepend(called: seq<Executor>, rest: Trace): Trace {
    Trace(rest.resolutions, called + rest.called)
  }

  lemma PrependMoves(called: seq<Executor>, executor: Executor, rest: Trace)
    ensures Prepend(called, Prepend([executor], rest)) == Prepend(called + [executor], rest)
  {
    assert called + ([executor] + rest.called) == called + [executor] + rest.called;
  }

  /** One iteration per job of the chain; the job for a retry is kicked by the one before it. */
  method IssueCall(world: nat -> Attempt, onlyLocal: bool, policy: Policy)
    returns (resolutions: seq<Resolution>, called: seq<Executor>)
    ensures Trace(resolutions, called) == Chain(world, onlyLocal, policy, None, 1)
  {
    hide Selected;
    resolutions, called := [], [];
    var maybeExecutor: Option<Executor> := None;
    var attemptNumber := 1;
    while true
      invariant 1 <= attemptNumber <= policy.maxRetries + 1
      invariant resolutions == []
      invariant Prepend(called, Chain(world, onlyLocal, policy, maybeExecutor, attemptNumber))
             == Chain(world, onlyLocal, policy, None, 1)
      decreases policy.maxRetries + 1 - attemptNumber
    {
      ghost var rest := Chain(world, onlyLocal, policy, maybeExecutor, attemptNumber);
      ghost var before := called;
      if maybeExecutor.None? {
        maybeExecutor := Selected(world(attemptNumber), onlyLocal);
      }
      if maybeExecutor.None? {
        resolutions := [NoCallableService];
        return;
      }
      var executor := maybeExecutor.value;
      called := called + [executor];
      match world(attemptNumber).answer {
        case Never =>
          return;
        case Threw =>
          resolutions := [CallFailed];
          return;
        case Responded(busy) =>
          if !busy || !(policy.maxRetries >= attemptNumber) {
            resolutions := [Delivered(busy, attemptNumber)];
            return;
          }
          if policy.tryNextExecutor {
            maybeExecutor := None;
          }
          attemptNumber := attemptNumber + 1;
          PrependMoves(before, executor, Chain(world, onlyLocal, policy, maybeExecutor, attemptNumber));
      }
    }
  }

  // ---- What a call comes to ----

  predicate SomeEligible(es: seq<Executor>, onlyLocal: bool) {
    exists i :: 0 <= i < |es| && Eligible(es[i], onlyLocal)
  }

  /** An executor is selected if and only if one is eligible, and the one selected is. */
  lemma SelectedIff(a: Attempt, onlyLocal: bool)
    ensures Selected(a, onlyLocal).Some? <==> SomeEligible(a.executors, onlyLocal)
    ensures match Selected(a, onlyLocal) case None => true case Some(e) => e in a.executors && Eligible(e, onlyLocal)
  {
    if a.executors != [] {
      SelectsNextEligible(a.executors, onlyLocal, a.lastIndex);
    }
    hide Scan;
  }

  /** This attempt selects an executor itself and finds none eligible. */
  predicate Stranded(world: nat -> Attempt, onlyLocal: bool, policy: Policy, given: Option<Executor>, n: nat, k: nat) {
    (if k == n then given.None? else policy.tryNextExecutor) && !SomeEligible(world(k).executors, onlyLocal)
  }

  /** Attempt k of a chain that begins with attempt n is issued: all before it were answered BUSY, there are
      retries left, and whenever one had to be selected an executor was eligible. */
  predicate Issued(world: nat -> Attempt, onlyLocal: bool, policy: Policy, given: Option<Executor>, n: nat, k: nat) {
    && n <= k <= policy.maxRetries + 1
    && (forall m :: n <= m < k ==> world(m).answer == Responded(true))
    && (forall m :: n <= m <= k ==> !Stranded(world, onlyLocal, policy, given, n, m))
  }

  /** What attempt k resolves the promise with, if no other attempt follows. */
  function Verdict(policy: Policy, answer: Answer, k: nat): seq<Resolution> {
    match answer
    case Never => []
    case Threw => [CallFailed]
    case Responded(busy) => [Delivered(busy, k)]
  }

  predicate Retried(policy: Policy, answer: Answer, k: nat) {
    answer == Responded(true) && k <= policy.maxRetries
  }

  lemma IssuedNext(world: nat -> Attempt, onlyLocal: bool, policy: Policy, given: Option<Executor>, n: nat, k: nat)
    requires 1 <= n < k && Retried(policy, world(n).answer, n) && !Stranded(world, onlyLocal, policy, given, n, n)
    ensures var handedOn := if policy.tryNextExecutor then None else Chosen(world(n), onlyLocal, given);
      Issued(world, onlyLocal, policy, given, n, k) <==> Issued(world, onlyLocal, policy, handedOn, n + 1, k)
  {
    var handedOn := if policy.tryNextExecutor then None else Chosen(world(n), onlyLocal, given);
    SelectedIff(world(n), onlyLocal);
    hide Selected;
    if Issued(world, onlyLocal, policy, handedOn, n + 1, k) {
      forall m | n <= m < k ensures world(m).answer == Responded(true) {}
      forall m | n <= m <= k ensures !Stranded(world, onlyLocal, policy, given, n, m) {
        if m > n { assert !Stranded(world, onlyLocal, policy, handedOn, n + 1, m); }
      }
    }
    if Issued(world, onlyLocal, policy, given, n, k) {
      var next := n + 1;
      forall m | next <= m <= k ensures !Stranded(world, onlyLocal, policy, handedOn, next, m) {
        assert !Stranded(world, onlyLocal, policy, given, n, m);
      }
    }
  }

  /** The attempts issued are those numbered n to n + |called| - 1, and the last of them, or the selection after
      it, decides the outcome. */
  lemma {:induction false} ChainComesTo(world: nat -> Attempt, onlyLocal: bool, policy: Policy,
                                        given: Option<Executor>, n: nat, k: nat)
    requires 1 <= n <= policy.maxRetries + 1
    ensures var t := Chain(world, onlyLocal, policy, given, n);
      && (Issued(world, onlyLocal, policy, given, n, k) <==> n <= k < n + |t.called|)
      && (Issued(world, onlyLocal, policy, given, n, k) && !Retried(policy, world(k).answer, k) ==>
            t.resolutions == Verdict(policy, world(k).answer, k) && |t.called| == k + 1 - n)
      && (n <= k <= policy.maxRetries + 1 && Stranded(world, onlyLocal, policy, given, n, k)
          && (k == n
              || (Issued(world, onlyLocal, policy, given, n, k - 1) && Retried(policy, world(k - 1).answer, k - 1)))
          ==> t.resolutions == [NoCallableService] && |t.called| == k - n)
    decreases policy.maxRetries + 1 - n
  {
    var chosen := Chosen(world(n), onlyLocal, given);
    SelectedIff(world(n), onlyLocal);
    hide Selected;
    assert chosen.Some? <==> !Stranded(world, onlyLocal, policy, given, n, n);
    if chosen.Some? && Retried(policy, world(n).answer, n) {
      var handedOn := if policy.tryNextExecutor then None else chosen;
      ChainComesTo(world, onlyLocal, policy, handedOn, n + 1, k);
      if k > n { IssuedNext(world, onlyLocal, policy, given, n, k); }
      if k > n + 1 { IssuedNext(world, onlyLocal, policy, given, n, k - 1); }
      assert k > n ==>
        (Stranded(world, onlyLocal, policy, given, n, k) <==> Stranded(world, onlyLocal, policy, handedOn, n + 1, k));
    }
  }

  /** What a call comes to, in terms of what its attempts meet. With m attempts issued: it is delivered the answer
      of attempt m if that is not BUSY or the retries are used up; it fails exactly if attempt m threw; it finds no
      callable service exactly if the selection for attempt m + 1, the first or after a BUSY answer with retries
      left, had nobody eligible to select; and it stays unresolved exactly if attempt m never ends. */
  lemma CallComesTo(world: nat -> Attempt, onlyLocal: bool, policy: Policy, busy: bool, k: nat)
    ensures var t := Chain(world, onlyLocal, policy, None, 1); var m := |t.called|;
      && (forall i :: 1 <= i <= m ==> Issued(world, onlyLocal, policy, None, 1, i))
      && m <= policy.maxRetries + 1
      && (t.resolutions == [Delivered(busy, k)] <==>
            k == m >= 1 && world(m).answer == Responded(busy) && !Retried(policy, world(m).answer, m))
      && (t.resolutions == [CallFailed] <==> m >= 1 && world(m).answer == Threw)
      && (t.resolutions == [NoCallableService] <==> m == 0 || Retried(policy, world(m).answer, m))
      && (t.resolutions == [NoCallableService] ==> Stranded(world, onlyLocal, policy, None, 1, m + 1))
      && (t.resolutions == [] <==> m >= 1 && world(m).answer == Never)
  {
    var t := Chain(world, onlyLocal, policy, None, 1);
    var m := |t.called|;
    forall i | 1 <= i <= m ensures Issued(world, onlyLocal, policy, None, 1, i) {
      ChainComesTo(world, onlyLocal, policy, None, 1, i);
    }
    ChainComesTo(world, onlyLocal, policy, None, 1, m);
    ChainComesTo(world, onlyLocal, policy, None, 1, m + 1);
    hide Chain;
    if m == 0 || Retried(policy, world(m).answer, m) {
      LastStranded(world, onlyLocal, policy, m);
    }
    hide Issued, Stranded;
  }

  lemma LastStranded(world: nat -> Attempt, onlyLocal: bool, policy: Policy, m: nat)
    requires !Issued(world, onlyLocal, policy, None, 1, m + 1)
    requires m == 0 || (Issued(world, onlyLocal, policy, None, 1, m) && Retried(policy, world(m).answer, m))
    ensures Stranded(world, onlyLocal, policy, None, 1, m + 1)
  {
    hide SomeEligible, Stranded;
    assert forall i {:trigger world(i)} :: 1 <= i < m + 1 ==> world(i).answer == Responded(true);
  }

  /** In particular an OK answer at an issued attempt is delivered with the number of that attempt. */
  lemma OkIsDelivered(world: nat -> Attempt, onlyLocal: bool, policy: Policy, k: nat)
    requires Issued(world, onlyLocal, policy, None, 1, k) && world(k).answer == Responded(false)
    ensures Chain(world, onlyLocal, policy, None, 1).resolutions == [Delivered(false, k)]
    ensures |Chain(world, onlyLocal, policy, None, 1).called| == k
  {
    ChainComesTo(world, onlyLocal, policy, None, 1, k);
  }

  // ---- Bounds and single resolution ----

  /** At most max_retries + 1 attempts; the promise is resolved at most once, and exactly once when every
      issued attempt completes. */
  lemma {:induction false} ChainIsBounded(world: nat -> Attempt, onlyLocal: bool, policy: Policy,
                                          given: Option<Executor>, n: nat)
    requires 1 <= n <= policy.maxRetries + 1
    ensures var t := Chain(world, onlyLocal, policy, given, n);
      && |t.called| <= policy.maxRetries + 2 - n
      && |t.resolutions| <= 1
      && ((forall k :: n <= k <= policy.maxRetries + 1 ==> !world(k).answer.Never?) ==> |t.resolutions| == 1)
    decreases policy.maxRetries + 1 - n
  {
    var chosen := Chosen(world(n), onlyLocal, given);
    if chosen.Some? && world(n).answer == Responded(true) && policy.maxRetries >= n {
      ChainIsBounded(world, onlyLocal, policy, if policy.tryNextExecutor then None else chosen, n + 1);
    }
  }

  /** A delivered response reports exactly the number of attempts made, each earlier one was answered BUSY,
      and BUSY itself is delivered only when the retries are used up. */
  lemma {:induction false} DeliveredReportsAttempts(world: nat -> Attempt, onlyLocal: bool, policy: Policy,
                                                    given: Option<Executor>, n: nat)
    requires 1 <= n <= policy.maxRetries + 1
    ensures var t := Chain(world, onlyLocal, policy, given, n);
      t.resolutions != [] && t.resolutions[0].Delivered? ==>
        var d := t.resolutions[0];
        && d.attempts == n + |t.called| - 1
        && (forall k :: n <= k < d.attempts ==> world(k).answer == Responded(true))
        && world(d.attempts).answer == Responded(d.busy)
        && (d.busy ==> d.attempts == policy.maxRetries + 1)
    decreases policy.maxRetries + 1 - n
  {
    var chosen := Chosen(world(n), onlyLocal, given);
    if chosen.Some? && world(n).answer == Responded(true) && policy.maxRetries >= n {
      DeliveredReportsAttempts(world, onlyLocal, policy, if policy.tryNextExecutor then None else chosen, n + 1);
    }
  }

  /** Without try_next_executor every attempt of a call goes to the executor of the first. */
  lemma {:induction false} RetriesStay(world: nat -> Attempt, onlyLocal: bool, policy: Policy,
                                       given: Option<Executor>, n: nat, k: nat)
    requires 1 <= n <= policy.maxRetries + 1 && !policy.tryNextExecutor
    requires k < |Chain(world, onlyLocal, policy, given, n).called|
    ensures Some(Chain(world, onlyLocal, policy, given, n).called[k]) == Chosen(world(n), onlyLocal, given)
    decreases policy.maxRetries + 1 - n
  {
    var chosen := Chosen(world(n), onlyLocal, given);
    if k == 0 {
    } else {
      RetriesStay(world, onlyLocal, policy, chosen, n + 1, k - 1);
    }
  }

  /** With try_next_executor the k-th attempt goes to the executor selected for it. */
  lemma {:induction false} RetriesMoveOn(world: nat -> Attempt, onlyLocal: bool, policy: Policy, n: nat, k: nat)
    requires 1 <= n <= policy.maxRetries + 1 && policy.tryNextExecutor
    requires k < |Chain(world, onlyLocal, policy, None, n).called|
    ensures Some(Chain(world, onlyLocal, policy, None, n).called[k]) == Selected(world(n + k), onlyLocal)
    decreases policy.maxRetries + 1 - n
  {
    if k == 0 {
    } else {
      RetriesMoveOn(world, onlyLocal, policy, n + 1, k - 1);
    }
  }

  /** The executors stay the same and no other call selects in between. */
  ghost predicate Undisturbed(world: nat -> Attempt, es: seq<Executor>, onlyLocal: bool, last: nat) {
    forall n: nat :: n > 0 ==>
      world(n).executors == es && world(n).lastIndex == LastBefore(es, onlyLocal, last, n - 1)
  }

  /** Then attempt k + 1 goes to the executor that the k-th of a series of undisturbed selections picks. */
  lemma UndisturbedRetries(world: nat -> Attempt, es: seq<Executor>, onlyLocal: bool, last: nat, policy: Policy, k: nat)
    requires policy.tryNextExecutor && Undisturbed(world, es, onlyLocal, last)
    requires k < |Chain(world, onlyLocal, policy, None, 1).called|
    ensures match Pick(es, onlyLocal, last, k)
            case None => false
            case Some(i) => i < |es| && Chain(world, onlyLocal, policy, None, 1).called[k] == es[i]
  {
    RetriesMoveOn(world, onlyLocal, policy, 1, k);
    hide Chain, Select;
    assert world(k + 1).executors == es;
  }

  lemma RanksDiffer(first: nat, j: nat, k: nat, n: nat)
    requires RankAfter(first, j, n) < n && j < k < j + n
    ensures RankAfter(first, j, n) != RankAfter(first, k, n)
  {
    RankAfterSum(first, j, k - j, n);
    RankWithinRound(RankAfter(first, j, n), k - j, n);
    hide RankAfter;
    assert j + (k - j) == k;
  }

  /** As many picks in a row as there are eligible executors are all different. */
  lemma PicksDiffer(es: seq<Executor>, onlyLocal: bool, last: nat, j: nat, k: nat)
    requires es != [] && j < k < j + |Eligibles(es, onlyLocal, |es|)|
    ensures Pick(es, onlyLocal, last, j) != Pick(es, onlyLocal, last, k)
  {
    hide Pick, Eligibles, RankAfterIndex, RankAfter, Increasing;
    var list := Eligibles(es, onlyLocal, |es|);
    var first := RankAfterIndex(es, onlyLocal, Min(|es| - 1, last));
    EligiblesIncrease(es, onlyLocal, |es|);
    PickIsRanked(es, onlyLocal, last, j);
    PickIsRanked(es, onlyLocal, last, k);
    RanksDiffer(first, j, k, |list|);
    IncreasingDiffers(list, |es|, RankAfter(first, j, |list|), RankAfter(first, k, |list|));
  }

  lemma IncreasingDiffers(list: seq<nat>, n: nat, x: nat, y: nat)
    requires Increasing(list, n) && x < |list| && y < |list| && x != y
    ensures list[x] != list[y]
  {
  }

  /** So no executor is asked again before every other eligible one has been asked. */
  lemma UndisturbedRetriesDiffer(world: nat -> Attempt, es: seq<Executor>, onlyLocal: bool, last: nat, policy: Policy,
                                 j: nat, k: nat)
    requires policy.tryNextExecutor && Undisturbed(world, es, onlyLocal, last) && UniqueIds(es)
    requires j < k < |Chain(world, onlyLocal, policy, None, 1).called|
    requires k < j + |Eligibles(es, onlyLocal, |es|)|
    ensures var called := Chain(world, onlyLocal, policy, None, 1).called; called[j].id != called[k].id
  {
    UndisturbedRetries(world, es, onlyLocal, last, policy, j);
    UndisturbedRetries(world, es, onlyLocal, last, policy, k);
    hide Chain, Pick, Eligibles;
    PicksDiffer(es, onlyLocal, last, j, k);
  }
}
