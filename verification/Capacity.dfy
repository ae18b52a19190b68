/** Concurrent calls to one LocalServiceExecutor: each call is a job of its own, taking these atomic steps. */
module Capacity {
  import opened Wrappers

  datatype Resolution = Busy | Result | Failed

  /** Where the job of a call is. Locked to Leaving and Rejecting to Refused hold the mutex. */
  datatype Pc =
    | Waiting       // about to take the mutex
    | Locked        // about to compare the counter with the capacity
    | Rejecting     // about to resolve the promise with BUSY
    | Refused       // resolved, about to return, which releases the mutex
    | Admitting     // about to count itself
    | Leaving       // counted, about to release the mutex
    | Executing     // running the service function, outside the mutex
    | Releasing     // resolved, about to count itself out, outside the mutex
    | Done

  /** `met` and `returned` are history: how many calls were in flight when this one compared, itself not included,
      and whether its service function returned (or threw). */
  datatype Call = Call(pc: Pc, resolutions: seq<Resolution>, taken: nat, released: nat, met: Option<nat>,
                       returned: Option<bool>)

  /** The capacity is a signed 32-bit number; zero and below mean no limit. */
  datatype State = State(capacity: int, count: int, mutex: Option<nat>, calls: seq<Call>)

  function Start(capacity: int): State {
    State(capacity, 0, None, [])
  }

  /** Issue kicks the job of one more call; Go(k, ok) is the next step of call k, in which `ok` says whether
      the service function returns or throws. */
  datatype Action = Issue | Go(call: nat, ok: bool)

  const ISSUED := Call(Waiting, [], 0, 0, None, None)

  predicate Enabled(s: State, x: Action) {
    match x
    case Issue => true
    case Go(k, _) => k < |s.calls| && !s.calls[k].pc.Done? && (s.calls[k].pc.Waiting? ==> s.mutex.None?)
  }

  predicate Full(capacity: int, count: int) {
    capacity > 0 && count >= capacity
  }

  function Advance(s: State, c: Call, ok: bool): Call {
    match c.pc
    case Waiting => c.(pc := Locked)
    case Locked =>
      c.(pc := if Full(s.capacity, s.count) then Rejecting else Admitting, met := Some(InFlight(s.calls)))
    case Rejecting => c.(pc := Refused, resolutions := c.resolutions + [Busy])
    case Refused => c.(pc := Done)
    case Admitting => c.(pc := Leaving, taken := c.taken + 1)
    case Leaving => c.(pc := Executing)
    case Executing =>
      c.(pc := Releasing, resolutions := c.resolutions + [if ok then Result else Failed], returned := Some(ok))
    case Releasing => c.(pc := Done, released := c.released + 1)
    case Done => c
  }

  function Step(s: State, x: Action): State
    requires Enabled(s, x)
  {
    match x
    case Issue => s.(calls := s.calls + [ISSUED])
    case Go(k, ok) =>
      var pc := s.calls[k].pc;
      State(s.capacity,
            if pc.Admitting? then s.count + 1 else if pc.Releasing? then s.count - 1 else s.count,
            if pc.Waiting? then Some(k) else if pc.Leaving? || pc.Refused? then None else s.mutex,
            s.calls[k := Advance(s, s.calls[k], ok)])
  }

  // ---- What every step keeps ----

  /** Admitted, and its slot not yet given back. */
  predicate Holding(c: Call) {
    c.pc.Leaving? || c.pc.Executing? || c.pc.Releasing?
  }

  function InFlight(calls: seq<Call>): nat {
    if calls == [] then 0 else (if Holding(calls[0]) then 1 else 0) + InFlight(calls[1..])
  }

  predicate Guarded(c: Call) {
    c.pc.Locked? || c.pc.Rejecting? || c.pc.Refused? || c.pc.Admitting? || c.pc.Leaving?
  }

  /** What a call has done by the time it gets to where it is. */
  predicate CallOk(capacity: int, c: Call) {
    && c.taken == (if Holding(c) || (c.pc.Done? && Busy !in c.resolutions) then 1 else 0)
    && c.released == (if c.pc.Done? && Busy !in c.resolutions then 1 else 0)
    && |c.resolutions| == (if c.pc.Refused? || c.pc.Releasing? || c.pc.Done? then 1 else 0)
    && (c.met.None? <==> c.pc.Waiting? || c.pc.Locked?)
    && (c.pc.Rejecting? || c.pc.Refused? || Busy in c.resolutions ==> capacity > 0 && c.met == Some(capacity))
    && (c.pc.Refused? ==> c.resolutions == [Busy])
    && (c.pc.Releasing? ==> Busy !in c.resolutions)
    && (Result in c.resolutions <==> c.returned == Some(true))
    && (Failed in c.resolutions <==> c.returned == Some(false))
    && (c.returned.Some? ==> c.pc.Releasing? || c.pc.Done?)
    && (c.met.Some? && !c.pc.Rejecting? && Busy !in c.resolutions ==> capacity <= 0 || c.met.value < capacity)
  }

  predicate CallFits(s: State, k: nat)
    requires k < |s.calls|
  {
    && CallOk(s.capacity, s.calls[k])
    && (Guarded(s.calls[k]) <==> s.mutex == Some(k))
    && (s.calls[k].pc.Admitting? && s.capacity > 0 ==> s.count < s.capacity)
  }

  predicate Inv(s: State) {
    && s.count == InFlight(s.calls)
    && (s.capacity > 0 ==> s.count <= s.capacity)
    && (forall k :: 0 <= k < |s.calls| ==> CallFits(s, k))
    && (s.mutex.Some? ==> s.mutex.value < |s.calls|)
  }

  lemma {:induction false} InFlightUpdate(calls: seq<Call>, k: nat, c: Call)
    requires k < |calls|
    ensures InFlight(calls[k := c]) + (if Holding(calls[k]) then 1 else 0)
         == InFlight(calls) + if Holding(c) then 1 else 0
  {
    if k == 0 {
      assert calls[k := c][1..] == calls[1..];
    } else {
      assert calls[k := c][1..] == calls[1..][k - 1 := c];
      InFlightUpdate(calls[1..], k - 1, c);
    }
  }

  lemma {:induction false} InFlightAppend(calls: seq<Call>, c: Call)
    ensures InFlight(calls + [c]) == InFlight(calls) + if Holding(c) then 1 else 0
  {
    if calls == [] {
    } else {
      assert (calls + [c])[1..] == calls[1..] + [c];
      InFlightAppend(calls[1..], c);
    }
  }

  lemma AdvanceOk(s: State, k: nat, ok: bool)
    requires Inv(s) && Enabled(s, Go(k, ok))
    ensures CallOk(s.capacity, Advance(s, s.calls[k], ok))
  {
    assert CallFits(s, k);
  }

  lemma StepFits(s: State, k: nat, ok: bool, j: nat)
    requires Inv(s) && Enabled(s, Go(k, ok)) && j < |s.calls|
    ensures CallFits(Step(s, Go(k, ok)), j)
  {
    AdvanceOk(s, k, ok);
    assert CallFits(s, k) && CallFits(s, j);
    hide CallOk, InFlight;
  }

  /** The counter is read and raised under the mutex but lowered outside it; still it never exceeds the
      capacity, since between a call's comparison and its own raise the counter can only fall. */
  lemma StepKeepsInv(s: State, x: Action)
    requires Inv(s) && Enabled(s, x)
    ensures Inv(Step(s, x))
  {
    match x
    case Issue =>
      InFlightAppend(s.calls, ISSUED);
      forall j | 0 <= j < |s.calls| + 1 ensures CallFits(Step(s, x), j) {
        if j < |s.calls| { assert CallFits(s, j); }
      }
    case Go(k, ok) =>
      InFlightUpdate(s.calls, k, Advance(s, s.calls[k], ok));
      forall j | 0 <= j < |s.calls| ensures CallFits(Step(s, x), j) { StepFits(s, k, ok, j); }
      assert CallFits(s, k);
      hide CallOk, InFlight;
  }

  /** Some job can go on as long as one has not ended. */
  lemma NoDeadlock(s: State, k: nat)
    requires Inv(s) && k < |s.calls| && !s.calls[k].pc.Done?
    ensures exists j :: Enabled(s, Go(j, true))
  {
    var j := if s.mutex.Some? then s.mutex.value else k;
    assert CallFits(s, j);
    assert Enabled(s, Go(j, true));
  }

  /** The steps a call has before it, at most. */
  function StepsLeft(pc: Pc): nat {
    match pc
    case Waiting => 7
    case Locked => 6
    case Rejecting => 2
    case Refused => 1
    case Admitting => 5
    case Leaving => 4
    case Executing => 3
    case Releasing => 2
    case Done => 0
  }

  /** Every step of a call brings it nearer to its end and moves no other call. */
  lemma GoGetsOn(s: State, k: nat, ok: bool)
    requires Enabled(s, Go(k, ok))
    ensures var s' := Step(s, Go(k, ok));
      && |s'.calls| == |s.calls| && StepsLeft(s'.calls[k].pc) < StepsLeft(s.calls[k].pc)
      && forall i :: 0 <= i < |s.calls| && i != k ==> s'.calls[i] == s.calls[i]
  {
  }

  // ---- Whole runs ----

  predicate Valid(s: State, xs: seq<Action>)
    decreases |xs|
  {
    xs == [] || (Enabled(s, xs[0]) && Valid(Step(s, xs[0]), xs[1..]))
  }

  function Last(s: State, xs: seq<Action>): State
    requires Valid(s, xs)
    decreases |xs|
  {
    if xs == [] then s else Last(Step(s, xs[0]), xs[1..])
  }

  lemma {:induction false} RunKeepsInv(s: State, xs: seq<Action>)
    requires Inv(s) && Valid(s, xs)
    ensures Inv(Last(s, xs)) && Last(s, xs).capacity == s.capacity
    decreases |xs|
  {
    if xs == [] {
    } else {
      StepKeepsInv(s, xs[0]);
      RunKeepsInv(Step(s, xs[0]), xs[1..]);
    }
  }

  /** In every interleaving of any number of calls the counter is the number of admitted calls that have not
      given their slot back, and it never exceeds a positive capacity. */
  lemma CapacityIsSafe(capacity: int, xs: seq<Action>)
    requires Valid(Start(capacity), xs)
    ensures var s := Last(Start(capacity), xs);
      s.count == InFlight(s.calls) && (capacity > 0 ==> s.count <= capacity)
  {
    RunKeepsInv(Start(capacity), xs);
  }

  /** A call whose job has ended has resolved its promise exactly once, and it was with BUSY exactly when the
      capacity is limited and that many calls were in flight when it compared, with its result exactly when the
      service function returned, and as failed exactly when that threw. It has taken and given back one slot if it
      was admitted, and none if it was not. */
  lemma EveryCallSettles(capacity: int, xs: seq<Action>, k: nat)
    requires Valid(Start(capacity), xs) && k < |Last(Start(capacity), xs).calls|
    ensures var c := Last(Start(capacity), xs).calls[k];
      && |c.resolutions| <= 1 && c.released <= c.taken <= 1
      && (c.pc.Done? ==>
            && |c.resolutions| == 1 && c.met.Some?
            && (c.resolutions == [Busy] <==> capacity > 0 && c.met.value == capacity)
            && (c.resolutions == [Result] <==> c.returned == Some(true))
            && (c.resolutions == [Failed] <==> c.returned == Some(false))
            && c.taken == c.released == if c.resolutions == [Busy] then 0 else 1)
  {
    RunKeepsInv(Start(capacity), xs);
    var s := Last(Start(capacity), xs);
    assert CallFits(s, k);
  }

  /** When every job has ended, all slots are free again. */
  lemma {:induction false} NoneInFlight(calls: seq<Call>)
    requires forall c :: c in calls ==> c.pc.Done?
    ensures InFlight(calls) == 0
  {
    if calls == [] {
    } else {
      NoneInFlight(calls[1..]);
    }
  }

  lemma AllSlotsReturn(capacity: int, xs: seq<Action>)
    requires Valid(Start(capacity), xs)
    requires forall c :: c in Last(Start(capacity), xs).calls ==> c.pc.Done?
    ensures Last(Start(capacity), xs).count == 0
  {
    CapacityIsSafe(capacity, xs);
    NoneInFlight(Last(Start(capacity), xs).calls);
  }

  // ---- The executor's fields ----

  const TWO_TO_32 := 0x1_0000_0000

  /** The conversion from size_t to a signed 32-bit number. */
  function Narrow(capacity: nat): int {
    var low := capacity % TWO_TO_32;
    if low < TWO_TO_32 / 2 then low else low - TWO_TO_32
  }

  class LocalServiceExecutor {
    const capacity: int
    var currentConcurrentCalls: nat

    /** The capacity is given as a size_t; any value that narrows to zero or below switches the limit off. */
    constructor (capacity: nat)
      ensures currentConcurrentCalls == 0
      ensures this.capacity <= 0 <==> capacity % TWO_TO_32 == 0 || capacity % TWO_TO_32 >= TWO_TO_32 / 2
      ensures this.capacity > 0 ==> this.capacity == capacity % TWO_TO_32
    {
      this.capacity := Narrow(capacity);
      currentConcurrentCalls := 0;
    }

    /** The section under the mutex. */
    method Admit() returns (resolution: Option<Resolution>)
      modifies this`currentConcurrentCalls
      ensures resolution == if Full(capacity, old(currentConcurrentCalls)) then Some(Busy) else None
      ensures currentConcurrentCalls == old(currentConcurrentCalls) + if resolution.None? then 1 else 0
      ensures old(capacity > 0 ==> currentConcurrentCalls <= capacity) ==>
                (capacity > 0 ==> currentConcurrentCalls <= capacity)
    {
      if capacity > 0 && currentConcurrentCalls >= capacity {
        return Some(Busy);
      }
      currentConcurrentCalls := currentConcurrentCalls + 1;
      return None;
    }

    method Release()
      requires currentConcurrentCalls > 0
      modifies this`currentConcurrentCalls
      ensures currentConcurrentCalls == old(currentConcurrentCalls) - 1
    {
      currentConcurrentCalls := currentConcurrentCalls - 1;
    }
  }

  /** The job of one call with no other in between. */
  method ExecuteCall(executor: LocalServiceExecutor, ok: bool) returns (resolution: Resolution)
    modifies executor`currentConcurrentCalls
    ensures executor.currentConcurrentCalls == old(executor.currentConcurrentCalls)
    ensures resolution == if Full(executor.capacity, executor.currentConcurrentCalls) then Busy
                          else if ok then Result else Failed
  {
    var refused := executor.Admit();
    if refused.Some? {
      return refused.value;
    }
    resolution := if ok then Result else Failed;
    executor.Release();
  }
}
