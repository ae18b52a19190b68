/** BoostFiberRecursiveSpinLock as steps of any number of threads and fibers, one atomic access each,
    refining a recursive mutex. */
module RecursiveLock {
  import opened Wrappers

  type Actor = nat

  /** Where an actor is inside try_lock or unlock. */
  datatype Pc =
    | Outside
    // try_lock
    | Reading                // holds the info mutex, about to look at the owner record
    | Recursing              // holds the info mutex, found itself, about to raise the count
    | ReleasingTrue          // holds the info mutex, about to release it and return true
    | ReleasingOther         // holds the info mutex, found no owner or another one
    | Swapping               // about to test and set the flag
    | Acquired               // set the flag, waiting for the info mutex
    | RecordingOwner         // holds the info mutex
    | RecordingCount         // holds the info mutex
    // unlock
    | Checking               // holds the info mutex, about to read the owner record, the count and the flag
    | Lowering               // holds the info mutex, count above one, about to lower it
    | Clearing               // holds the info mutex, about to clear the flag
    | Resetting              // flag clear, holds the info mutex, about to drop the owner record
    | Zeroing                // holds the info mutex, about to store a zero count
    | ReleasingUnlock        // holds the info mutex, about to release it and return

  /** The last two fields are specification: the abstract mutex the lock stands for, and for each actor
      the number of its successful lock calls less its unlock calls. */
  datatype State = State(
    flag: bool,
    owner: Option<Actor>,
    count: int,
    infoMutex: Option<Actor>,
    pcs: map<Actor, Pc>,
    mutex: Mutex,
    depths: map<Actor, nat>)

  /** An abstract recursive mutex: free, or held by one actor some number of times. */
  datatype Mutex = Free | Held(holder: Actor, depth: nat)

  function Depth(m: Mutex, a: Actor): nat {
    if m.Held? && m.holder == a then m.depth else 0
  }

  // ---- The abstract operations ----

  function MutexTryLock(m: Mutex, a: Actor): (Mutex, bool) {
    if m.Free? then (Held(a, 1), true)
    else if m.holder == a then (Held(a, m.depth + 1), true)
    else (m, false)
  }

  function MutexUnlock(m: Mutex, a: Actor): Mutex
    requires m.Held? && m.holder == a
  {
    if m.depth > 1 then Held(a, m.depth - 1) else Free
  }

  // ---- The concrete steps ----

  const START := State(false, None, 0, None, map[], Free, map[])

  function PcOf(s: State, a: Actor): Pc {
    if a in s.pcs then s.pcs[a] else Outside
  }

  function DepthOf(s: State, a: Actor): nat {
    if a in s.depths then s.depths[a] else 0
  }

  function At(s: State, a: Actor, pc: Pc): State {
    s.(pcs := s.pcs[a := pc])
  }

  datatype Action =
    | CallTryLock(actor: Actor)   // begins by taking the info mutex
    | CallUnlock(actor: Actor)    // begins by taking the info mutex
    | Go(actor: Actor)            // the actor's next atomic access

  /** Calls are balanced: unlock is called only by an actor with a lock call to its credit. Taking the
      info mutex needs it free. */
  predicate Enabled(s: State, x: Action) {
    match x
    case CallTryLock(a) => PcOf(s, a).Outside? && s.infoMutex.None?
    case CallUnlock(a) => PcOf(s, a).Outside? && s.infoMutex.None? && DepthOf(s, a) > 0
    case Go(a) => !PcOf(s, a).Outside? && (PcOf(s, a).Acquired? ==> s.infoMutex.None?)
  }

  function Step(s: State, x: Action): State
    requires Enabled(s, x)
  {
    var a := x.actor;
    match x
    case CallTryLock(_) => At(s, a, Reading).(infoMutex := Some(a))
    case CallUnlock(_) => At(s, a, Checking).(infoMutex := Some(a), depths := s.depths[a := DepthOf(s, a) - 1])
    case Go(_) =>
      match PcOf(s, a)
      case Reading => At(s, a, if s.owner == Some(a) then Recursing else ReleasingOther)
      case Recursing => At(s, a, ReleasingTrue).(count := s.count + 1, mutex := MutexTryLock(s.mutex, a).0)
      case ReleasingTrue =>
        At(s, a, Outside).(infoMutex := None, depths := s.depths[a := DepthOf(s, a) + 1])
      case ReleasingOther => At(s, a, Swapping).(infoMutex := None)
      case Swapping =>
        if s.flag then At(s, a, Outside)  // returns false
        else At(s, a, Acquired).(flag := true, mutex := MutexTryLock(s.mutex, a).0)
      case Acquired => At(s, a, RecordingOwner).(infoMutex := Some(a))
      case RecordingOwner => At(s, a, RecordingCount).(owner := Some(a))
      case RecordingCount => At(s, a, ReleasingTrue).(count := 1)
      case Checking => At(s, a, if s.owner == Some(a) && s.count > 1 then Lowering else Clearing)
      case Lowering =>
        At(s, a, ReleasingUnlock).(count := s.count - 1,
          mutex := if Depth(s.mutex, a) > 0 then MutexUnlock(s.mutex, a) else s.mutex)
      case Clearing =>
        At(s, a, Resetting).(flag := false,
          mutex := if Depth(s.mutex, a) > 0 then MutexUnlock(s.mutex, a) else s.mutex)
      case Resetting => At(s, a, Zeroing).(owner := None)
      case Zeroing => At(s, a, ReleasingUnlock).(count := 0)
      case ReleasingUnlock => At(s, a, Outside).(infoMutex := None)
      case Outside => s
  }

  // ---- The invariant ----

  predicate HoldsInfo(pc: Pc) {
    !pc.Outside? && !pc.Swapping? && !pc.Acquired?
  }

  /** Has the flag but is not recorded as the owner yet. */
  predicate Unrecorded(pc: Pc) {
    pc.Acquired? || pc.RecordingOwner?
  }

  /** A lock call that has taken effect and has not returned. */
  predicate Taking(pc: Pc) {
    pc.Acquired? || pc.RecordingOwner? || pc.RecordingCount? || pc.ReleasingTrue?
  }

  /** An unlock call that has not taken effect. */
  predicate Letting(pc: Pc) {
    pc.Checking? || pc.Lowering? || pc.Clearing?
  }

  predicate Is(m: Mutex, a: Actor) {
    m.Held? && m.holder == a
  }

  predicate ActorOk(s: State, a: Actor) {
    var pc := PcOf(s, a);
    && (HoldsInfo(pc) <==> s.infoMutex == Some(a))
    && DepthOf(s, a) + (if Taking(pc) || Letting(pc) then 1 else 0) == Depth(s.mutex, a)
    && (pc.Acquired? || pc.RecordingOwner? || pc.RecordingCount? ==> s.mutex == Held(a, 1))
    && (pc.Recursing? || Letting(pc) || pc.ReleasingTrue? ==> Is(s.mutex, a))
    && (pc.ReleasingOther? || pc.Swapping? || pc.Resetting? || pc.Zeroing? ==> !Is(s.mutex, a))
    && (pc.Lowering? ==> s.count > 1)
    && (pc.Clearing? ==> s.count == 1)
  }

  /** The owner record and the count, for every place the interested actors can be in. */
  predicate RecordOk(s: State) {
    && s.flag == s.mutex.Held?
    && (s.mutex.Held? ==> s.mutex.depth > 0)
    && (s.owner.Some? ==> Is(s.mutex, s.owner.value) || PcOf(s, s.owner.value).Resetting?)
    && (s.mutex.Held? && !Unrecorded(PcOf(s, s.mutex.holder)) ==>
          && s.owner == Some(s.mutex.holder)
          && s.count == if PcOf(s, s.mutex.holder).RecordingCount? then 0 else s.mutex.depth)
    && (s.infoMutex.Some? ==> var pc := PcOf(s, s.infoMutex.value);
          && (pc.Resetting? ==> s.owner == s.infoMutex && s.count == 1)
          && (pc.Zeroing? ==> s.owner.None? && s.count == 1))
    && ((s.mutex.Free? || Unrecorded(PcOf(s, s.mutex.holder))) &&
        (s.infoMutex.None? || (!PcOf(s, s.infoMutex.value).Resetting? && !PcOf(s, s.infoMutex.value).Zeroing?)) ==>
          s.owner.None? && s.count == 0)
  }

  ghost predicate Inv(s: State) {
    RecordOk(s) && forall a: Actor :: ActorOk(s, a)
  }

  lemma StartInv()
    ensures Inv(START)
  {
  }

  lemma CallKeepsInv(s: State, x: Action)
    requires Inv(s) && Enabled(s, x) && !x.Go?
    ensures Inv(Step(s, x))
  {
    var s' := Step(s, x);
    assert ActorOk(s, x.actor);
    forall a: Actor ensures ActorOk(s', a) {
      assert ActorOk(s, a);
    }
  }

  lemma GoKeepsSelf(s: State, a: Actor)
    requires Inv(s) && Enabled(s, Go(a))
    ensures ActorOk(Step(s, Go(a)), a)
  {
    if Letting(PcOf(s, a)) {
      UnlockKeepsSelf(s, a);
    } else {
      LockKeepsSelf(s, a);
    }
  }

  lemma UnlockKeepsSelf(s: State, a: Actor)
    requires Inv(s) && Enabled(s, Go(a)) && Letting(PcOf(s, a))
    ensures ActorOk(Step(s, Go(a)), a)
  {
    assert ActorOk(s, a);
    if s.mutex.Held? { assert ActorOk(s, s.mutex.holder); }
  }

  lemma LockKeepsSelf(s: State, a: Actor)
    requires Inv(s) && Enabled(s, Go(a)) && !Letting(PcOf(s, a))
    ensures ActorOk(Step(s, Go(a)), a)
  {
    assert ActorOk(s, a);
    if s.mutex.Held? { assert ActorOk(s, s.mutex.holder); }
  }

  /** No step of one actor disturbs another: what the others rely on is out of reach or monotone. */
  lemma GoKeepsOther(s: State, a: Actor, b: Actor)
    requires Inv(s) && Enabled(s, Go(a)) && a != b
    ensures ActorOk(Step(s, Go(a)), b)
  {
    assert ActorOk(s, a) && ActorOk(s, b) && (s.mutex.Held? ==> s.mutex.depth > 0) && s.flag == s.mutex.Held?;
    hide RecordOk;
  }

  lemma GoKeepsRecord(s: State, a: Actor)
    requires Inv(s) && Enabled(s, Go(a))
    ensures RecordOk(Step(s, Go(a)))
  {
    var s' := Step(s, Go(a));
    assert ActorOk(s, a);
    if s.mutex.Held? { assert ActorOk(s, s.mutex.holder); }
    if s.owner.Some? { assert ActorOk(s, s.owner.value); }
    if s.infoMutex.Some? { assert ActorOk(s, s.infoMutex.value); }
  }

  lemma StepKeepsInv(s: State, x: Action)
    requires Inv(s) && Enabled(s, x)
    ensures Inv(Step(s, x))
  {
    if x.Go? {
      GoKeepsRecord(s, x.actor);
      GoKeepsSelf(s, x.actor);
      forall b: Actor | b != x.actor ensures ActorOk(Step(s, x), b) {
        GoKeepsOther(s, x.actor, b);
      }
      hide Step, ActorOk, RecordOk;
    } else {
      CallKeepsInv(s, x);
    }
  }

  // ---- Refinement: every call takes effect once, as the abstract mutex would ----

  /** try_lock takes effect when it raises the count or sets the flag. */
  predicate TakesLock(s: State, x: Action)
    requires Enabled(s, x)
  {
    x.Go? && (PcOf(s, x.actor).Recursing? || (PcOf(s, x.actor).Swapping? && !s.flag))
  }

  /** try_lock gives up when it finds the flag set. */
  predicate GivesUp(s: State, x: Action)
    requires Enabled(s, x)
  {
    x.Go? && PcOf(s, x.actor).Swapping? && s.flag
  }

  /** unlock takes effect when it lowers the count or clears the flag. */
  predicate LetsGo(s: State, x: Action)
    requires Enabled(s, x)
  {
    x.Go? && (PcOf(s, x.actor).Lowering? || PcOf(s, x.actor).Clearing?)
  }

  /** A successful try_lock is one the abstract mutex grants, a failed one is one it denies, an unlock is
      one it accepts, and no other step changes it. */
  lemma StepRefines(s: State, x: Action)
    requires Inv(s) && Enabled(s, x)
    ensures var s' := Step(s, x); var a := x.actor;
      if TakesLock(s, x) then MutexTryLock(s.mutex, a) == (s'.mutex, true)
      else if GivesUp(s, x) then MutexTryLock(s.mutex, a) == (s.mutex, false) && s'.mutex == s.mutex
      else if LetsGo(s, x) then Is(s.mutex, a) && s'.mutex == MutexUnlock(s.mutex, a)
      else s'.mutex == s.mutex
  {
    assert ActorOk(s, x.actor);
    if s.mutex.Held? { assert ActorOk(s, s.mutex.holder); }
  }

  /** The recorded count says how often unlock has to be called: it is lowered exactly when the abstract
      mutex stays held, and the flag is cleared exactly when the mutex becomes free. */
  lemma UnlockBranchIsRight(s: State, a: Actor)
    requires Inv(s) && PcOf(s, a).Checking?
    ensures var s' := Step(s, Go(a));
      && (PcOf(s', a).Lowering? <==> Depth(s.mutex, a) > 1)
      && (PcOf(s', a).Clearing? <==> Depth(s.mutex, a) == 1)
  {
    assert ActorOk(s, a);
  }

  /** The assertions in try_lock and unlock, at the points where they are evaluated. */
  predicate AssertionsHold(s: State, a: Actor) {
    match PcOf(s, a)
    case Reading => s.owner.Some? ==> s.count > 0 && s.flag
    case Checking => s.owner == Some(a) && s.count > 0 && s.flag
    case _ => true
  }

  lemma AssertionsAlwaysHold(s: State, a: Actor)
    requires Inv(s)
    ensures AssertionsHold(s, a)
  {
    assert ActorOk(s, a);
    if s.mutex.Held? { assert ActorOk(s, s.mutex.holder); }
  }

  /** Mutual exclusion, counted in completed calls. */
  lemma AtMostOneHolds(s: State, a: Actor, b: Actor)
    requires Inv(s) && DepthOf(s, a) > 0 && DepthOf(s, b) > 0
    ensures a == b
  {
    assert ActorOk(s, a) && ActorOk(s, b);
  }

  /** Whenever the info mutex is free the record is exact: the recorded owner's count is the number of its
      lock calls not yet undone, and without a recorded owner nobody has any. */
  lemma RecordIsExact(s: State, a: Actor)
    requires Inv(s) && s.infoMutex.None?
    ensures DepthOf(s, a) == if s.owner == Some(a) then s.count else 0
    ensures s.owner == Some(a) ==> s.count > 0
    ensures s.owner.None? ==> s.count == 0
  {
    assert ActorOk(s, a);
    if s.mutex.Held? { assert ActorOk(s, s.mutex.holder); }
    if s.owner.Some? { assert ActorOk(s, s.owner.value); }
  }

  /** The holder's own lock call never waits for the flag. */
  lemma HolderReenters(s: State, a: Actor)
    requires Inv(s) && PcOf(s, a).Reading? && Is(s.mutex, a)
    ensures PcOf(Step(s, Go(a)), a).Recursing?
  {
    assert ActorOk(s, a);
  }

  // ---- Whole runs ----

  predicate Valid(s: State, xs: seq<Action>)
    decreases |xs|
  {
    xs == [] || (Enabled(s, xs[0]) && Valid(Step(s, xs[0]), xs[1..]))
  }

  function Last(s: State, xs: seq<Action>): State
    requires Valid(s, xs)
    decreases |xs|
  {
    if xs == [] then s else Last(Step(s, xs[0]), xs[1..])
  }

  /** In every interleaving of any number of threads and fibers making balanced calls. */
  lemma {:induction false} EveryRunKeepsInv(s: State, xs: seq<Action>)
    requires Inv(s) && Valid(s, xs)
    ensures Inv(Last(s, xs))
    decreases |xs|
  {
    if xs == [] {
    } else {
      StepKeepsInv(s, xs[0]);
      EveryRunKeepsInv(Step(s, xs[0]), xs[1..]);
    }
  }

  lemma EveryRunIsSafe(xs: seq<Action>, a: Actor, b: Actor)
    requires Valid(START, xs)
    ensures var s := Last(START, xs);
      && AssertionsHold(s, a)
      && (DepthOf(s, a) > 0 && DepthOf(s, b) > 0 ==> a == b)
      && (s.infoMutex.None? ==> DepthOf(s, a) == if s.owner == Some(a) then s.count else 0)
  {
    StartInv();
    EveryRunKeepsInv(START, xs);
    var s := Last(START, xs);
    AssertionsAlwaysHold(s, a);
    if DepthOf(s, a) > 0 && DepthOf(s, b) > 0 { AtMostOneHolds(s, a, b); }
    if s.infoMutex.None? { RecordIsExact(s, a); }
    hide Inv;
  }

  // ---- Calls come to an end, with the right answer ----

  predicate Trying(pc: Pc) {
    || pc.Reading? || pc.Recursing? || pc.ReleasingTrue? || pc.ReleasingOther? || pc.Swapping?
    || pc.Acquired? || pc.RecordingOwner? || pc.RecordingCount?
  }

  predicate Unlocking(pc: Pc) {
    || pc.Checking? || pc.Lowering? || pc.Clearing? || pc.Resetting? || pc.Zeroing? || pc.ReleasingUnlock?
  }

  /** The accesses a call has before it, at most. */
  function Left(pc: Pc): nat {
    match pc
    case Outside => 0
    case Reading => 7
    case Recursing => 2
    case ReleasingTrue => 1
    case ReleasingOther => 6
    case Swapping => 5
    case Acquired => 4
    case RecordingOwner => 3
    case RecordingCount => 2
    case Checking => 5
    case Lowering => 2
    case Clearing => 4
    case Resetting => 3
    case Zeroing => 2
    case ReleasingUnlock => 1
  }

  /** Every access brings its call nearer to its end, and no call turns into another. */
  lemma GoGetsOn(s: State, a: Actor)
    requires Enabled(s, Go(a))
    ensures var s' := Step(s, Go(a));
      && Left(PcOf(s', a)) < Left(PcOf(s, a))
      && (Trying(PcOf(s', a)) ==> Trying(PcOf(s, a))) && (Unlocking(PcOf(s', a)) ==> Unlocking(PcOf(s, a)))
  {
  }

  /** In every interleaving: a try_lock call either ends with one more lock to its credit, or ends at a moment when
      another actor holds the lock. The end of an unlock call changes no credit, which was lowered as it began. */
  lemma CallEnds(s: State, a: Actor)
    requires Inv(s) && Enabled(s, Go(a)) && PcOf(Step(s, Go(a)), a).Outside?
    ensures var s' := Step(s, Go(a));
      if Trying(PcOf(s, a)) then
        || DepthOf(s', a) == DepthOf(s, a) + 1
        || (DepthOf(s', a) == DepthOf(s, a) && s.mutex.Held? && s.mutex.holder != a && s'.mutex == s.mutex)
      else DepthOf(s', a) == DepthOf(s, a)
  {
    assert ActorOk(s, a);
    if s.mutex.Held? { assert ActorOk(s, s.mutex.holder); }
  }

  /** The rest of a's call, with no other actor moving. */
  ghost predicate FinishesAs(s: State, a: Actor, mutex: Mutex, depth: nat) {
    exists xs :: (forall x <- xs :: x == Go(a)) && Valid(s, xs) && Returned(Last(s, xs), a, mutex, depth)
  }

  predicate Returned(s: State, a: Actor, mutex: Mutex, depth: nat) {
    PcOf(s, a).Outside? && s.infoMutex.None? && s.mutex == mutex && DepthOf(s, a) == depth
  }

  lemma FinishesNow(s: State, a: Actor, mutex: Mutex, depth: nat)
    requires Returned(s, a, mutex, depth)
    ensures FinishesAs(s, a, mutex, depth)
  {
    var none: seq<Action> := [];
    assert Valid(s, none) && Last(s, none) == s;
  }

  lemma FinishesLater(s: State, a: Actor, mutex: Mutex, depth: nat)
    requires Enabled(s, Go(a)) && FinishesAs(Step(s, Go(a)), a, mutex, depth)
    ensures FinishesAs(s, a, mutex, depth)
  {
    var rest :| (forall x <- rest :: x == Go(a)) && Valid(Step(s, Go(a)), rest)
                && Returned(Last(Step(s, Go(a)), rest), a, mutex, depth);
    var xs := [Go(a)] + rest;
    assert xs[1..] == rest;
    hide Step, Returned;
    assert Valid(s, xs) && Last(s, xs) == Last(Step(s, Go(a)), rest);
  }

  /** What the call is going to come to, if nobody else moves. */
  function Expected(s: State, a: Actor): (Mutex, nat) {
    var pc, d := PcOf(s, a), DepthOf(s, a);
    if pc.Reading? || pc.Recursing? || pc.ReleasingOther? || pc.Swapping? then
      (MutexTryLock(s.mutex, a).0, d + if MutexTryLock(s.mutex, a).1 then 1 else 0)
    else if Trying(pc) then (s.mutex, d + 1)
    else if Letting(pc) && Depth(s.mutex, a) > 0 then (MutexUnlock(s.mutex, a), d)
    else (s.mutex, d)
  }

  lemma TryAsExpected(s: State, a: Actor)
    requires Inv(s) && Enabled(s, Go(a)) && Trying(PcOf(s, a))
    ensures Expected(Step(s, Go(a)), a) == Expected(s, a)
  {
    assert ActorOk(s, a);
    if s.mutex.Held? { assert ActorOk(s, s.mutex.holder); }
  }

  lemma UnlockAsExpected(s: State, a: Actor)
    requires Inv(s) && Enabled(s, Go(a)) && !Trying(PcOf(s, a))
    ensures Expected(Step(s, Go(a)), a) == Expected(s, a)
  {
    assert ActorOk(s, a);
    if s.mutex.Held? { assert ActorOk(s, s.mutex.holder); }
  }

  lemma GoAsExpected(s: State, a: Actor)
    requires Inv(s) && Enabled(s, Go(a)) && (s.infoMutex.None? || s.infoMutex == Some(a))
    ensures var s' := Step(s, Go(a));
      Expected(s', a) == Expected(s, a) && (s'.infoMutex.None? || s'.infoMutex == Some(a))
  {
    if Trying(PcOf(s, a)) { TryAsExpected(s, a); } else { UnlockAsExpected(s, a); }
    hide Expected, Inv;
  }

  lemma {:induction false} AloneAsExpected(s: State, a: Actor)
    requires Inv(s) && (s.infoMutex.None? || s.infoMutex == Some(a))
    ensures FinishesAs(s, a, Expected(s, a).0, Expected(s, a).1)
    decreases Left(PcOf(s, a))
  {
    assert ActorOk(s, a);
    if PcOf(s, a).Outside? {
      FinishesNow(s, a, s.mutex, DepthOf(s, a));
    } else {
      assert Enabled(s, Go(a));
      GoGetsOn(s, a);
      GoAsExpected(s, a);
      StepKeepsInv(s, Go(a));
      hide Step, Inv, ActorOk, Expected, Left, Enabled;
      AloneAsExpected(Step(s, Go(a)), a);
      FinishesLater(s, a, Expected(s, a).0, Expected(s, a).1);
    }
  }

  /** A try_lock call run undisturbed to its end is granted or denied, and leaves the lock, as the abstract mutex
      says: whatever the other actors are in the middle of, a free lock is taken. */
  lemma TryLockAlone(s: State, a: Actor)
    requires Inv(s) && s.infoMutex.None? && PcOf(s, a).Outside?
    ensures var (mutex, granted) := MutexTryLock(s.mutex, a);
      FinishesAs(Step(s, CallTryLock(a)), a, mutex, DepthOf(s, a) + if granted then 1 else 0)
  {
    StepKeepsInv(s, CallTryLock(a));
    AloneAsExpected(Step(s, CallTryLock(a)), a);
    hide Inv, FinishesAs;
  }

  /** And an unlock call takes one level off. */
  lemma UnlockAlone(s: State, a: Actor)
    requires Inv(s) && s.infoMutex.None? && PcOf(s, a).Outside? && DepthOf(s, a) > 0
    ensures Is(s.mutex, a) && FinishesAs(Step(s, CallUnlock(a)), a, MutexUnlock(s.mutex, a), DepthOf(s, a) - 1)
  {
    assert ActorOk(s, a);
    StepKeepsInv(s, CallUnlock(a));
    AloneAsExpected(Step(s, CallUnlock(a)), a);
    hide Inv, FinishesAs;
  }

  // ---- The calls as the source writes them ----

  /** The lock object, with each call undisturbed. `Stands` is the abstract mutex it stands for. */
  class RecursiveSpinLock {
    var flag: bool
    var ownerInfo: Option<Actor>
    var ownerLockCount: nat

    predicate Valid()
      reads this
    {
      flag == ownerInfo.Some? && (ownerInfo.Some? <==> ownerLockCount > 0)
    }

    function Stands(): Mutex
      requires Valid()
      reads this
    {
      if flag then Held(ownerInfo.value, ownerLockCount) else Free
    }

    constructor ()
      ensures Valid() && Stands() == Free
    {
      flag, ownerInfo, ownerLockCount := false, None, 0;
    }

    method TryLock(me: Actor) returns (locked: bool)
      requires Valid()
      modifies this
      ensures Valid() && (Stands(), locked) == MutexTryLock(old(Stands()), me)
    {
      if ownerInfo.Some? {
        assert ownerLockCount > 0 && flag;
        if ownerInfo.value == me {
          ownerLockCount := ownerLockCount + 1;
          return true;
        }
      }
      var alreadyLocked := flag;
      flag := true;
      if !alreadyLocked {
        ownerInfo := Some(me);
        ownerLockCount := 1;
      }
      return !alreadyLocked;
    }

    method Unlock(me: Actor)
      requires Valid() && Is(Stands(), me)
      modifies this
      ensures Valid() && Stands() == MutexUnlock(old(Stands()), me)
    {
      assert ownerInfo == Some(me) && ownerLockCount > 0 && flag;
      if ownerInfo.Some? {
        if ownerInfo.value == me && ownerLockCount > 1 {
          ownerLockCount := ownerLockCount - 1;
          return;
        }
      }
      flag := false;
      ownerInfo := None;
      ownerLockCount := 0;
    }
  }
}
