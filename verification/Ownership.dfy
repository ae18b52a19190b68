/** The Owner / Borrower / Reference protocol: objects on a heap and the atomic steps on them.

    The state lock keeps moves and borrows apart, but a destructor never takes it: it reads the borrow count
    and stores the alive flag by single atomic accesses that may fall into a locked section. A borrow through
    a reference is therefore a step for each of its reads of the alive flag and one for its increment. */
module Ownership {
  import opened Wrappers

  type StateId = nat
  type OwnerId = nat
  type BorrowerId = nat
  type RefId = nat

  /** The owned objects; only their identity matters. */
  type Object = nat

  /** The state shared by an owner, its borrowers and its references. */
  datatype Shared = Shared(borrows: int, alive: bool, owner: OwnerId)

  /** How far an owner is in its destructor. */
  datatype Mode = InUse | Destructing | PassedCheck

  datatype OwnerCell = OwnerCell(state: Option<StateId>, owned: Option<Object>, mode: Mode)

  /** How far a borrow through a reference is that holds the state lock. */
  datatype Stage =
    | Rechecking   // TryBorrow has found the state alive, PerformBorrow is about to look again
    | Adding       // PerformBorrow has found it alive, the Borrower is about to raise the count

  /** What a call on a reference ends with. */
  datatype Answer = Nothing | Throws | Lending(borrower: BorrowerId)

  /** `attempts` are the state locks held by a borrow through a reference. `subject` is history: the object
      first put under the care of a shared state. */
  datatype Heap = Heap(
    states: map<StateId, Shared>,
    owners: map<OwnerId, OwnerCell>,
    borrowers: map<BorrowerId, StateId>,
    refs: map<RefId, Option<StateId>>,
    attempts: map<StateId, Stage>,
    subject: map<StateId, Object>)

  const EMPTY := Heap(map[], map[], map[], map[], map[], map[])

  datatype Action =
    | NewOwner(owner: OwnerId, state: StateId, subject: Object)
    | Move(from: OwnerId, to: OwnerId)
    | BorrowOwner(owner: OwnerId, borrower: BorrowerId)
    | TryBorrow(ref: RefId)         // takes the lock and reads the alive flag
    | Borrow(ref: RefId)            // the same, for a call that throws if it fails
    | Recheck(state: StateId)       // the second read of a TryBorrow
    | Add(state: StateId, borrower: BorrowerId)
    | CopyBorrower(of: BorrowerId, borrower: BorrowerId)
    | DropBorrower(borrower: BorrowerId)
    | EmptyReference(ref: RefId)
    | ReferOwner(owner: OwnerId, ref: RefId)
    | ReferBorrower(of: BorrowerId, ref: RefId)
    | Destruct(owner: OwnerId)      // the destructor begins
    | PassCheck(owner: OwnerId)     // it reads a borrow count of zero
    | StoreDead(owner: OwnerId)     // it stores alive = false and the owner is gone

  predicate InUseOwner(h: Heap, o: OwnerId) {
    o in h.owners && h.owners[o].mode.InUse? && h.owners[o].state.Some? && h.owners[o].state.value in h.states
  }

  /** An owner at this point of its life, whose state (if a move has left it one) exists. */
  predicate At(h: Heap, o: OwnerId, mode: Mode) {
    o in h.owners && h.owners[o].mode == mode && (h.owners[o].state.Some? ==> h.owners[o].state.value in h.states)
  }

  function Shares(h: Heap, o: OwnerId): Shared
    requires o in h.owners && h.owners[o].state.Some? && h.owners[o].state.value in h.states
  {
    h.states[h.owners[o].state.value]
  }

  predicate Known(h: Heap, b: BorrowerId) {
    b in h.borrowers && h.borrowers[b] in h.states
  }

  /** CanBorrow: the reference has a state and that state is alive. */
  predicate CanBorrow(h: Heap, r: RefId) {
    r in h.refs &&
    h.refs[r].Some? && h.refs[r].value in h.states && h.states[h.refs[r].value].alive
  }

  predicate Locked(h: Heap, s: Option<StateId>) {
    s.Some? && s.value in h.attempts
  }

  predicate AtStage(h: Heap, s: StateId, stage: Stage) {
    s in h.attempts && h.attempts[s] == stage && s in h.states
  }

  /** New objects get fresh addresses; owners are used before their destructor runs and not after a move
      has emptied them. Moves and borrows wait for the state lock, destructors do not. */
  predicate Enabled(h: Heap, x: Action) {
    match x
    case NewOwner(o, s, _) => o !in h.owners && s !in h.states
    case Move(from, to) => InUseOwner(h, from) && to !in h.owners && !Locked(h, h.owners[from].state)
    case BorrowOwner(o, b) => InUseOwner(h, o) && b !in h.borrowers && !Locked(h, h.owners[o].state)
    case TryBorrow(r) => r in h.refs && !Locked(h, h.refs[r])
    case Borrow(r) => r in h.refs && !Locked(h, h.refs[r])
    case Recheck(s) => AtStage(h, s, Rechecking)
    case Add(s, b) => AtStage(h, s, Adding) && b !in h.borrowers
    case CopyBorrower(of, b) => Known(h, of) && b !in h.borrowers
    case DropBorrower(b) => Known(h, b)
    case EmptyReference(r) => r !in h.refs
    case ReferOwner(o, r) => InUseOwner(h, o) && r !in h.refs
    case ReferBorrower(of, r) => Known(h, of) && r !in h.refs
    case Destruct(o) => o in h.owners && h.owners[o].mode.InUse?
    case PassCheck(o) => At(h, o, Destructing) && (h.owners[o].state.Some? ==> Shares(h, o).borrows <= 0)
    case StoreDead(o) => At(h, o, PassedCheck)
  }

  /** The constructor of Borrower: remember the state and raise its count. */
  function AddBorrower(h: Heap, s: StateId, b: BorrowerId): Heap
    requires s in h.states
  {
    h.(borrowers := h.borrowers[b := s], states := h.states[s := h.states[s].(borrows := h.states[s].borrows + 1)])
  }

  function Step(h: Heap, x: Action): Heap
    requires Enabled(h, x)
  {
    match x
    case NewOwner(o, s, v) =>
      h.(states := h.states[s := Shared(0, true, o)],
         owners := h.owners[o := OwnerCell(Some(s), Some(v), InUse)],
         subject := h.subject[s := v])
    case Move(from, to) =>
      var s := h.owners[from].state.value;
      h.(states := h.states[s := h.states[s].(owner := to)],
         owners := h.owners[to := OwnerCell(Some(s), h.owners[from].owned, InUse)]
                           [from := OwnerCell(None, None, InUse)])
    case BorrowOwner(o, b) => AddBorrower(h, h.owners[o].state.value, b)
    case TryBorrow(r) => if CanBorrow(h, r) then h.(attempts := h.attempts[h.refs[r].value := Rechecking]) else h
    case Borrow(r) => if CanBorrow(h, r) then h.(attempts := h.attempts[h.refs[r].value := Adding]) else h
    case Recheck(s) =>
      h.(attempts := if h.states[s].alive then h.attempts[s := Adding] else h.attempts - {s})
    case Add(s, b) => AddBorrower(h, s, b).(attempts := h.attempts - {s})
    case CopyBorrower(of, b) => AddBorrower(h, h.borrowers[of], b)
    case DropBorrower(b) =>
      var s := h.borrowers[b];
      h.(borrowers := h.borrowers - {b},
         states := h.states[s := h.states[s].(borrows := h.states[s].borrows - 1)])
    case EmptyReference(r) => h.(refs := h.refs[r := None])
    case ReferOwner(o, r) => h.(refs := h.refs[r := h.owners[o].state])
    case ReferBorrower(of, r) => h.(refs := h.refs[r := Some(h.borrowers[of])])
    case Destruct(o) => h.(owners := h.owners[o := h.owners[o].(mode := Destructing)])
    case PassCheck(o) => h.(owners := h.owners[o := h.owners[o].(mode := PassedCheck)])
    case StoreDead(o) =>
      (match h.owners[o].state
       case None => h.(owners := h.owners - {o})
       case Some(s) => h.(owners := h.owners - {o}, states := h.states[s := h.states[s].(alive := false)]))
  }

  /** The answer of a call on a reference, if this step ends it. */
  function AnswerOf(h: Heap, x: Action): Option<Answer> {
    match x
    case TryBorrow(r) => if CanBorrow(h, r) then None else Some(Nothing)
    case Borrow(r) => if CanBorrow(h, r) then None else Some(Throws)
    case Recheck(s) => if s in h.states && h.states[s].alive then None else Some(Throws)
    case Add(_, b) => Some(Lending(b))
    case _ => None
  }

  /** Dereferencing a borrower: follow the shared state to its current owner and take what it owns. */
  function Deref(h: Heap, b: BorrowerId): Option<Object>
    requires Known(h, b)
  {
    var o := h.states[h.borrowers[b]].owner;
    if o in h.owners then h.owners[o].owned else None
  }

  // ---- Accounting ----

  function BorrowersOf(borrowers: map<BorrowerId, StateId>, s: StateId): set<BorrowerId> {
    set b | b in borrowers && borrowers[b] == s
  }

  lemma AddedBorrower(borrowers: map<BorrowerId, StateId>, b: BorrowerId, s: StateId, t: StateId)
    requires b !in borrowers
    ensures |BorrowersOf(borrowers[b := s], t)| == |BorrowersOf(borrowers, t)| + if s == t then 1 else 0
  {
    if s == t {
      assert BorrowersOf(borrowers[b := s], t) == BorrowersOf(borrowers, t) + {b};
    } else {
      assert BorrowersOf(borrowers[b := s], t) == BorrowersOf(borrowers, t);
    }
  }

  lemma RemovedBorrower(borrowers: map<BorrowerId, StateId>, b: BorrowerId, t: StateId)
    requires b in borrowers
    ensures |BorrowersOf(borrowers - {b}, t)| == |BorrowersOf(borrowers, t)| - if borrowers[b] == t then 1 else 0
  {
    if borrowers[b] == t {
      assert BorrowersOf(borrowers - {b}, t) == BorrowersOf(borrowers, t) - {b};
    } else {
      assert BorrowersOf(borrowers - {b}, t) == BorrowersOf(borrowers, t);
    }
  }

  /** The borrow count is the number of live borrowers. */
  predicate Counted(h: Heap) {
    forall s :: s in h.states ==> h.states[s].borrows == |BorrowersOf(h.borrowers, s)|
  }

  predicate OwnerOk(h: Heap, o: OwnerId)
    requires o in h.owners
  {
    h.owners[o].state.Some? ==>
      var s := h.owners[o].state.value;
      && s in h.states && h.states[s].alive && h.states[s].owner == o
      && s in h.subject && h.owners[o].owned == Some(h.subject[s])
  }

  predicate StateOk(h: Heap, s: StateId)
    requires s in h.states
  {
    && s in h.subject
    && (h.states[s].alive ==> h.states[s].owner in h.owners && h.owners[h.states[s].owner].state == Some(s))
  }

  /** An owner that holds a shared state is the one that state points to, and owns the original object; an
      alive state points to such an owner. */
  predicate Linked(h: Heap) {
    && (forall o :: o in h.owners ==> OwnerOk(h, o))
    && (forall s :: s in h.states ==> StateOk(h, s))
    && (forall b :: b in h.borrowers ==> h.borrowers[b] in h.states)
    && (forall r :: r in h.refs && h.refs[r].Some? ==> h.refs[r].value in h.states)
    && (forall s :: s in h.attempts ==> s in h.states)
  }

  predicate Inv(h: Heap) {
    Counted(h) && Linked(h)
  }

  lemma AddBorrowerCounts(h: Heap, s: StateId, b: BorrowerId)
    requires Inv(h) && s in h.states && b !in h.borrowers
    ensures Counted(AddBorrower(h, s, b))
  {
    var h' := AddBorrower(h, s, b);
    forall t | t in h'.states ensures h'.states[t].borrows == |BorrowersOf(h'.borrowers, t)| {
      AddedBorrower(h.borrowers, b, s, t);
    }
  }

  lemma StepKeepsCounts(h: Heap, x: Action)
    requires Inv(h) && Enabled(h, x)
    ensures Counted(Step(h, x))
  {
    match x
    case NewOwner(o, s, _) => assert BorrowersOf(h.borrowers, s) == {};
    case BorrowOwner(o, b) => AddBorrowerCounts(h, h.owners[o].state.value, b);
    case Add(s, b) => AddBorrowerCounts(h, s, b);
    case CopyBorrower(of, b) => AddBorrowerCounts(h, h.borrowers[of], b);
    case DropBorrower(b) =>
      var h' := Step(h, x);
      forall t | t in h'.states ensures h'.states[t].borrows == |BorrowersOf(h'.borrowers, t)| {
        RemovedBorrower(h.borrowers, b, t);
      }
    case _ =>
  }

  predicate ChangesOwners(x: Action) {
    x.NewOwner? || x.Move? || x.StoreDead?
  }

  /** The other steps leave alone which owner holds which state, and which states are alive. */
  lemma SameOwnership(h: Heap, x: Action)
    requires Linked(h) && Enabled(h, x) && !ChangesOwners(x)
    ensures SameHoldings(h, Step(h, x))
  {
    hide Linked, OwnerOk, StateOk;
  }

  predicate SameHoldings(h: Heap, h': Heap) {
    && h'.subject == h.subject
    && h'.owners.Keys == h.owners.Keys && h'.states.Keys == h.states.Keys
    && (forall o <- h.owners :: h'.owners[o].state == h.owners[o].state && h'.owners[o].owned == h.owners[o].owned)
    && (forall s <- h.states :: h'.states[s].alive == h.states[s].alive && h'.states[s].owner == h.states[s].owner)
  }

  lemma StepKeepsOwners(h: Heap, x: Action, o: OwnerId)
    requires Linked(h) && Enabled(h, x) && o in Step(h, x).owners
    ensures OwnerOk(Step(h, x), o)
  {
    if ChangesOwners(x) {
      if o in h.owners { assert OwnerOk(h, o); }
      if x.Move? { assert OwnerOk(h, x.from); }
      if x.StoreDead? { assert OwnerOk(h, x.owner); }
      hide StateOk, Linked;
    } else {
      SameOwnership(h, x);
      assert o in h.owners && OwnerOk(h, o);
      hide Step, StateOk, Linked;
    }
  }

  lemma StepKeepsStates(h: Heap, x: Action, s: StateId)
    requires Linked(h) && Enabled(h, x) && s in Step(h, x).states
    ensures StateOk(Step(h, x), s)
  {
    if ChangesOwners(x) {
      if s in h.states { assert StateOk(h, s); }
      hide OwnerOk;
    } else {
      SameOwnership(h, x);
      assert s in h.states && StateOk(h, s);
      hide Step, OwnerOk, Linked;
    }
  }

  lemma StepKeepsHandles(h: Heap, x: Action)
    requires Linked(h) && Enabled(h, x)
    ensures var h' := Step(h, x);
      && (forall b :: b in h'.borrowers ==> h'.borrowers[b] in h'.states)
      && (forall r :: r in h'.refs && h'.refs[r].Some? ==> h'.refs[r].value in h'.states)
      && (forall s :: s in h'.attempts ==> s in h'.states)
  {
  }

  lemma StepKeepsInv(h: Heap, x: Action)
    requires Inv(h) && Enabled(h, x)
    ensures Inv(Step(h, x))
  {
    hide Step, OwnerOk, StateOk;
    var h' := Step(h, x);
    StepKeepsCounts(h, x);
    StepKeepsHandles(h, x);
    forall o | o in h'.owners ensures OwnerOk(h', o) { StepKeepsOwners(h, x, o); }
    forall s | s in h'.states ensures StateOk(h', s) { StepKeepsStates(h, x, s); }
  }

  // ---- Exclusive ownership and stable borrows ----

  /** At most one owner holds a shared state. */
  lemma OwnershipIsExclusive(h: Heap, o: OwnerId, p: OwnerId)
    requires Inv(h) && o in h.owners && p in h.owners
    requires h.owners[o].state.Some? && h.owners[o].state == h.owners[p].state
    ensures o == p
  {
    assert OwnerOk(h, o) && OwnerOk(h, p);
  }

  /** A borrower of an alive state reaches the object its owner was made for. */
  lemma BorrowReachesSubject(h: Heap, b: BorrowerId)
    requires Inv(h) && Known(h, b) && h.states[h.borrowers[b]].alive
    ensures Deref(h, b) == Some(h.subject[h.borrowers[b]])
  {
    var s := h.borrowers[b];
    assert StateOk(h, s);
    assert OwnerOk(h, h.states[s].owner);
  }

  predicate Valid(h: Heap, xs: seq<Action>)
    decreases |xs|
  {
    xs == [] || (Enabled(h, xs[0]) && Valid(Step(h, xs[0]), xs[1..]))
  }

  function Last(h: Heap, xs: seq<Action>): Heap
    requires Valid(h, xs)
    decreases |xs|
  {
    if xs == [] then h else Last(Step(h, xs[0]), xs[1..])
  }

  // ---- When borrowers outlive their owner, and when not ----

  predicate BorrowersAlive(h: Heap) {
    forall b :: b in h.borrowers ==> h.borrowers[b] in h.states && h.states[h.borrowers[b]].alive
  }

  /** The destructor declares the state dead while its borrow count is zero and no borrow through a reference
      stands between its last read of the alive flag and its increment. */
  predicate DiesClean(h: Heap, x: Action)
    requires Enabled(h, x)
  {
    x.StoreDead? && h.owners[x.owner].state.Some? ==>
      Shares(h, x.owner).borrows == 0 && !AtStage(h, h.owners[x.owner].state.value, Adding)
  }

  /** All borrowers have a living owner, and so will those about to be made. */
  predicate Sound(h: Heap) {
    BorrowersAlive(h) && forall s :: s in h.attempts && AtStage(h, s, Adding) ==> h.states[s].alive
  }

  lemma StoreKeepsSound(h: Heap, o: OwnerId)
    requires Inv(h) && Enabled(h, StoreDead(o)) && Sound(h)
    ensures BorrowersAlive(Step(h, StoreDead(o))) <==> h.owners[o].state.Some? ==> Shares(h, o).borrows == 0
    ensures Sound(Step(h, StoreDead(o))) <==> DiesClean(h, StoreDead(o))
  {
    var h' := Step(h, StoreDead(o));
    if h.owners[o].state.Some? {
      var s := h.owners[o].state.value;
      assert h.states[s].borrows == |BorrowersOf(h.borrowers, s)|;
      if h.states[s].borrows != 0 {
        var b :| b in BorrowersOf(h.borrowers, s);
        assert !h'.states[h'.borrowers[b]].alive;
      } else {
        assert forall b :: b in h.borrowers && h.borrowers[b] == s ==> b in BorrowersOf(h.borrowers, s);
      }
      assert AtStage(h, s, Adding) ==> s in h'.attempts && AtStage(h', s, Adding) && !h'.states[s].alive;
    }
  }

  lemma BorrowersKeepAlive(h: Heap, x: Action)
    requires Enabled(h, x) && Sound(h) && !x.StoreDead?
    requires x.BorrowOwner? ==> Shares(h, x.owner).alive
    ensures BorrowersAlive(Step(h, x))
  {
  }

  lemma AttemptsKeepAlive(h: Heap, x: Action)
    requires Enabled(h, x) && Sound(h) && !x.StoreDead?
    ensures var h' := Step(h, x); forall s :: s in h'.attempts && AtStage(h', s, Adding) ==> h'.states[s].alive
  {
    hide BorrowersAlive;
  }

  lemma OtherStepsKeepSound(h: Heap, x: Action)
    requires Inv(h) && Enabled(h, x) && Sound(h) && !x.StoreDead?
    ensures Sound(Step(h, x))
  {
    if x.BorrowOwner? { assert OwnerOk(h, x.owner); }
    hide Counted, Linked, OwnerOk, StateOk;
    BorrowersKeepAlive(h, x);
    AttemptsKeepAlive(h, x);
    hide Step, BorrowersAlive, AtStage;
  }

  predicate AllDieClean(h: Heap, xs: seq<Action>)
    requires Valid(h, xs)
    decreases |xs|
  {
    xs == [] || (DiesClean(h, xs[0]) && AllDieClean(Step(h, xs[0]), xs[1..]))
  }

  predicate AlwaysBorrowersAlive(h: Heap, xs: seq<Action>)
    requires Valid(h, xs)
    decreases |xs|
  {
    BorrowersAlive(h) && (xs == [] || AlwaysBorrowersAlive(Step(h, xs[0]), xs[1..]))
  }

  /** Any borrow still under way makes a borrower with a living owner. */
  ghost predicate EndsWell(h: Heap) {
    forall s, b :: Enabled(h, Add(s, b)) ==> BorrowersAlive(Step(h, Add(s, b)))
  }

  lemma {:induction false} FreshBorrower(taken: set<BorrowerId>) returns (b: BorrowerId)
    ensures forall c <- taken :: c < b
    decreases |taken|
  {
    if taken == {} {
      b := 0;
    } else {
      var c :| c in taken;
      assert forall d <- taken :: d == c || d in taken - {c};
      b := FreshBorrower(taken - {c});
      b := if b > c then b else c + 1;
    }
  }

  /** A borrow caught by the store can no longer turn back. */
  lemma {:induction false} CaughtBorrowDangles(h: Heap, xs: seq<Action>, s: StateId)
    requires Inv(h) && Valid(h, xs) && AtStage(h, s, Adding) && !h.states[s].alive
    ensures !(AlwaysBorrowersAlive(h, xs) && EndsWell(Last(h, xs)))
    decreases |xs|
  {
    if xs == [] {
      var b := FreshBorrower(h.borrowers.Keys);
      assert Enabled(h, Add(s, b)) && Step(h, Add(s, b)).borrowers[b] == s;
    } else {
      var x, h' := xs[0], Step(h, xs[0]);
      StepKeepsInv(h, x);
      if x.Add? && x.state == s {
        assert h'.borrowers[x.borrower] == s && !h'.states[s].alive;
        NotAlways(h', xs[1..]);
      } else {
        CaughtStays(h, x, s);
        CaughtBorrowDangles(h', xs[1..], s);
      }
    }
  }

  lemma NotAlways(h: Heap, xs: seq<Action>)
    requires Valid(h, xs) && !BorrowersAlive(h)
    ensures !AlwaysBorrowersAlive(h, xs)
  {
  }

  lemma CaughtStays(h: Heap, x: Action, s: StateId)
    requires Inv(h) && Enabled(h, x) && AtStage(h, s, Adding) && !h.states[s].alive && !(x.Add? && x.state == s)
    ensures AtStage(Step(h, x), s, Adding) && !Step(h, x).states[s].alive
  {
    if x.Move? { assert OwnerOk(h, x.from); }
  }

  /** All along a run, and after the borrows still under way at its end, every borrower has a living owner if
      and only if every destructor stores `dead` at a borrow count of zero with no borrow through a reference
      between its last read and its increment. (The destructor reads zero before, but the store is a separate
      access.) */
  lemma {:induction false} NoBorrowerOutlivesIff(h: Heap, xs: seq<Action>)
    requires Inv(h) && Sound(h) && Valid(h, xs)
    ensures AlwaysBorrowersAlive(h, xs) && EndsWell(Last(h, xs)) <==> AllDieClean(h, xs)
    decreases |xs|
  {
    if xs == [] {
      SoundEndsWell(h);
    } else {
      var x, h' := xs[0], Step(h, xs[0]);
      StepKeepsInv(h, x);
      if x.StoreDead? { StoreKeepsSound(h, x.owner); } else { OtherStepsKeepSound(h, x); }
      if DiesClean(h, x) {
        NoBorrowerOutlivesIff(h', xs[1..]);
      } else if BorrowersAlive(h') {
        CaughtBorrowDangles(h', xs[1..], h.owners[x.owner].state.value);
      } else {
        NotAlways(h', xs[1..]);
      }
    }
  }

  lemma SoundEndsWell(h: Heap)
    requires Sound(h)
    ensures EndsWell(h)
  {
  }

  // ---- What callers can do ----

  /** Some destructor of an owner of this state has read a zero count and not stored yet. */
  predicate InWindow(h: Heap, s: Option<StateId>) {
    exists o :: o in h.owners && h.owners[o].mode.PassedCheck? && h.owners[o].state == s
  }

  /** No borrow through a reference is under way from a destructor's last read of the borrow count to its
      store: none when it reads, and none begins afterwards. */
  predicate Calm(h: Heap, x: Action)
    requires Enabled(h, x)
  {
    match x
    case PassCheck(o) => !Locked(h, h.owners[o].state)
    case TryBorrow(r) => CanBorrow(h, r) ==> !InWindow(h, h.refs[r])
    case Borrow(r) => CanBorrow(h, r) ==> !InWindow(h, h.refs[r])
    case _ => true
  }

  predicate QuietWindows(h: Heap) {
    forall o :: o in h.owners && h.owners[o].mode.PassedCheck? && h.owners[o].state.Some? ==>
      h.owners[o].state.value in h.states && Shares(h, o).borrows == 0 && !Locked(h, h.owners[o].state)
  }

  lemma CountNotNegative(h: Heap, s: StateId)
    requires Inv(h) && s in h.states
    ensures h.states[s].borrows >= 0
    ensures h.states[s].borrows == 0 ==> forall b :: b in h.borrowers ==> h.borrowers[b] != s
  {
    assert forall b :: b in h.borrowers && h.borrowers[b] == s ==> b in BorrowersOf(h.borrowers, s);
  }

  lemma StepKeepsQuiet(h: Heap, x: Action)
    requires Inv(h) && Enabled(h, x) && Calm(h, x) && QuietWindows(h)
    ensures QuietWindows(Step(h, x))
  {
    var h' := Step(h, x);
    forall o | o in h'.owners && h'.owners[o].mode.PassedCheck? && h'.owners[o].state.Some?
      ensures h'.owners[o].state.value in h'.states && Shares(h', o).borrows == 0 && !Locked(h', h'.owners[o].state) {
      StepKeepsWindow(h, x, o);
    }
    hide Inv, Calm;
  }

  /** In an open window nobody borrows: there is no borrower to copy or drop and nobody adding. */
  lemma WindowCount(h: Heap, x: Action, o: OwnerId)
    requires Inv(h) && Enabled(h, x) && QuietWindows(h) && x != PassCheck(o) && x != StoreDead(o)
    requires o in h.owners && h.owners[o].mode.PassedCheck? && h.owners[o].state.Some?
    ensures h.owners[o].state.value in h.states && h.owners[o].state.value in Step(h, x).states
    ensures Step(h, x).states[h.owners[o].state.value].borrows == 0
  {
    var s := h.owners[o].state.value;
    CountNotNegative(h, s);
    if x.BorrowOwner? || x.Move? { assert OwnerOk(h, o) && OwnerOk(h, if x.Move? then x.from else x.owner); }
    hide Counted, Linked, OwnerOk, StateOk;
  }

  lemma WindowLock(h: Heap, x: Action, o: OwnerId)
    requires Enabled(h, x) && Calm(h, x) && QuietWindows(h)
    requires o in h.owners && h.owners[o].mode.PassedCheck? && h.owners[o].state.Some?
    ensures !Locked(Step(h, x), h.owners[o].state)
  {
  }

  lemma StepKeepsWindow(h: Heap, x: Action, o: OwnerId)
    requires Inv(h) && Enabled(h, x) && Calm(h, x) && QuietWindows(h)
    requires var h' := Step(h, x); o in h'.owners && h'.owners[o].mode.PassedCheck? && h'.owners[o].state.Some?
    ensures var h' := Step(h, x);
      h'.owners[o].state.value in h'.states && Shares(h', o).borrows == 0 && !Locked(h', h'.owners[o].state)
  {
    if x == PassCheck(o) {
      assert OwnerOk(h, o);
      CountNotNegative(h, h.owners[o].state.value);
      hide Inv, QuietWindows;
    } else {
      WindowOwner(h, x, o);
      WindowCount(h, x, o);
      WindowLock(h, x, o);
      hide Step, Inv, QuietWindows, Calm;
    }
  }

  lemma WindowOwner(h: Heap, x: Action, o: OwnerId)
    requires Enabled(h, x) && x != PassCheck(o)
    requires var h' := Step(h, x); o in h'.owners && h'.owners[o].mode.PassedCheck? && h'.owners[o].state.Some?
    ensures o in h.owners && h.owners[o] == Step(h, x).owners[o]
  {
  }

  predicate AlwaysCalm(h: Heap, xs: seq<Action>)
    requires Valid(h, xs)
    decreases |xs|
  {
    xs == [] || (Calm(h, xs[0]) && AlwaysCalm(Step(h, xs[0]), xs[1..]))
  }

  /** In calm runs the condition above is met at every destruction. */
  lemma {:induction false} CalmRunsDieClean(h: Heap, xs: seq<Action>)
    requires Inv(h) && QuietWindows(h) && Valid(h, xs) && AlwaysCalm(h, xs)
    ensures AllDieClean(h, xs) && Inv(Last(h, xs))
    decreases |xs|
  {
    if xs == [] {
    } else {
      StepKeepsQuiet(h, xs[0]);
      StepKeepsInv(h, xs[0]);
      CalmRunsDieClean(Step(h, xs[0]), xs[1..]);
    }
  }

  lemma {:induction false} AliveAtTheEnd(h: Heap, xs: seq<Action>)
    requires Valid(h, xs) && AlwaysBorrowersAlive(h, xs)
    ensures BorrowersAlive(Last(h, xs))
    decreases |xs|
  {
    if xs == [] {
    } else {
      AliveAtTheEnd(Step(h, xs[0]), xs[1..]);
    }
  }

  /** From an empty heap, through any calm run with any chain of moves: the borrow count is exact, and every
      borrower dereferences to the object its shared state was created for. */
  lemma BorrowsAreStable(xs: seq<Action>, b: BorrowerId)
    requires Valid(EMPTY, xs) && AlwaysCalm(EMPTY, xs) && b in Last(EMPTY, xs).borrowers
    ensures var h := Last(EMPTY, xs); var s := h.borrowers[b];
      && Known(h, b) && s in h.subject && Deref(h, b) == Some(h.subject[s])
      && h.states[s].borrows == |BorrowersOf(h.borrowers, s)|
  {
    CalmRunsDieClean(EMPTY, xs);
    NoBorrowerOutlivesIff(EMPTY, xs);
    AliveAtTheEnd(EMPTY, xs);
    var h := Last(EMPTY, xs);
    assert StateOk(h, h.borrowers[b]);
    BorrowReachesSubject(h, b);
  }

  /** What a state was created for never changes, nor which state a borrower belongs to. */
  lemma StepKeepsSubjects(h: Heap, x: Action, s: StateId, b: BorrowerId)
    requires Inv(h) && Enabled(h, x)
    ensures var h' := Step(h, x);
      && (s in h.states ==> s in h'.states && s in h'.subject && h'.subject[s] == h.subject[s])
      && (b in h.borrowers && b in h'.borrowers ==> h'.borrowers[b] == h.borrowers[b])
  {
    SubjectsStay(h, x, s);
    hide Counted, Linked, OwnerOk, StateOk;
  }

  lemma SubjectsStay(h: Heap, x: Action, s: StateId)
    requires Inv(h) && Enabled(h, x)
    ensures var h' := Step(h, x);
      s in h.states ==> s in h'.states && s in h'.subject && h'.subject[s] == h.subject[s]
  {
    if s in h.states { assert StateOk(h, s); }
    hide Counted, Linked, OwnerOk, StateOk;
  }

  // ---- Death is final ----

  /** Dead, without borrowers and without a borrow about to make one. */
  predicate Gone(h: Heap, s: StateId) {
    s in h.states && !h.states[s].alive && BorrowersOf(h.borrowers, s) == {} && !AtStage(h, s, Adding)
  }

  lemma StaysUnborrowed(h: Heap, x: Action, s: StateId)
    requires Enabled(h, x) && forall b :: b in h.borrowers ==> h.borrowers[b] != s
    requires s !in Gains(h, x)
    ensures BorrowersOf(Step(h, x).borrowers, s) == {}
  {
  }

  /** The state that gains a borrower. */
  function Gains(h: Heap, x: Action): set<StateId>
    requires Enabled(h, x)
  {
    match x
    case BorrowOwner(o, _) => {h.owners[o].state.value}
    case Add(s, _) => {s}
    case CopyBorrower(of, _) => {h.borrowers[of]}
    case _ => {}
  }

  lemma StepStaysGone(h: Heap, x: Action, s: StateId)
    requires Inv(h) && Enabled(h, x) && Gone(h, s)
    ensures Gone(Step(h, x), s)
  {
    assert forall b :: b in h.borrowers ==> h.borrowers[b] != s by {
      assert forall b :: b in h.borrowers && h.borrowers[b] == s ==> b in BorrowersOf(h.borrowers, s);
    }
    if x.BorrowOwner? { assert OwnerOk(h, x.owner); }
    if x.Move? { assert OwnerOk(h, x.from); }
    hide OwnerOk, StateOk, Counted, Linked;
    StaysUnborrowed(h, x, s);
    hide BorrowersOf;
  }

  /** This reference cannot borrow: its calls end at once and change nothing. */
  predicate Denied(h: Heap, r: RefId) {
    && !CanBorrow(h, r)
    && AnswerOf(h, TryBorrow(r)) == Some(Nothing) && AnswerOf(h, Borrow(r)) == Some(Throws)
    && (Enabled(h, TryBorrow(r)) ==> Step(h, TryBorrow(r)) == h)
    && (Enabled(h, Borrow(r)) ==> Step(h, Borrow(r)) == h)
  }

  /** Once a state is gone it stays so in every continuation: no reference can borrow, every TryBorrow returns
      nothing, every Borrow throws, and so does a TryBorrow that had found the state alive. */
  lemma {:induction false} DeathIsFinal(h: Heap, xs: seq<Action>, s: StateId)
    requires Inv(h) && Gone(h, s) && Valid(h, xs)
    ensures var h' := Last(h, xs);
      && Gone(h', s)
      && (forall r :: r in h'.refs && h'.refs[r] == Some(s) ==> Denied(h', r))
      && AnswerOf(h', Recheck(s)) == Some(Throws)
    decreases |xs|
  {
    if xs == [] {
    } else {
      StepStaysGone(h, xs[0], s);
      StepKeepsInv(h, xs[0]);
      DeathIsFinal(Step(h, xs[0]), xs[1..], s);
    }
  }

  /** The destructor's store makes the state gone for good exactly when nobody borrows at that moment and no
      borrow is past its last read. */
  lemma DeathIsCleanIff(h: Heap, o: OwnerId)
    requires Inv(h) && Enabled(h, StoreDead(o)) && h.owners[o].state.Some?
    ensures Gone(Step(h, StoreDead(o)), h.owners[o].state.value) <==> DiesClean(h, StoreDead(o))
  {
    var s := h.owners[o].state.value;
    assert h.states[s].borrows == |BorrowersOf(h.borrowers, s)|;
  }
}
