/** What the calls on owners, borrowers and references come to in the machine when nobody interferes. */
module OwnershipCalls {
  import opened Wrappers
  import opened Ownership

  /** One more borrower of state s, counted, and nothing else changed. */
  predicate Lends(h: Heap, h': Heap, s: StateId, b: BorrowerId)
    requires s in h.states
  {
    && h'.borrowers == h.borrowers[b := s] && s in h'.states
    && h'.states == h.states[s := Shared(h.states[s].borrows + 1, h.states[s].alive, h.states[s].owner)]
    && h'.owners == h.owners && h'.refs == h.refs && h'.attempts == h.attempts && h'.subject == h.subject
  }

  ghost predicate Comes(h: Heap, h': Heap) {
    exists xs :: Valid(h, xs) && Last(h, xs) == h'
  }

  lemma IsThere(h: Heap)
    ensures Comes(h, h)
  {
    var none: seq<Action> := [];
    assert Valid(h, none) && Last(h, none) == h;
  }

  lemma ComesVia(h: Heap, x: Action, h': Heap)
    requires Enabled(h, x) && Comes(Step(h, x), h')
    ensures Comes(h, h')
  {
    var rest :| Valid(Step(h, x), rest) && Last(Step(h, x), rest) == h';
    var xs := [x] + rest;
    assert xs[1..] == rest;
    hide Step, Enabled;
    assert Valid(h, xs) && Last(h, xs) == h';
  }

  /** An owner lends to a new borrower, which reaches what the owner owns; so does copying a borrower. */
  lemma OwnerLends(h: Heap, o: OwnerId, b: BorrowerId)
    requires Inv(h) && Enabled(h, BorrowOwner(o, b))
    ensures var h' := Step(h, BorrowOwner(o, b));
      Lends(h, h', h.owners[o].state.value, b) && Known(h', b) && Deref(h', b) == h.owners[o].owned
  {
    assert OwnerOk(h, o);
    hide Counted, Linked, StateOk;
  }

  lemma CopyLends(h: Heap, of: BorrowerId, b: BorrowerId)
    requires Enabled(h, CopyBorrower(of, b))
    ensures var h' := Step(h, CopyBorrower(of, b));
      Lends(h, h', h.borrowers[of], b) && Known(h', b) && Deref(h', b) == Deref(h, of)
  {
  }

  /** Dropping a borrower takes one off the count of its state. */
  lemma DropReturns(h: Heap, b: BorrowerId)
    requires Enabled(h, DropBorrower(b))
    ensures var h' := Step(h, DropBorrower(b)); var s := h.borrowers[b];
      && h'.borrowers == h.borrowers - {b} && h'.owners == h.owners && h'.refs == h.refs
      && s in h'.states && h'.states == h.states[s := h'.states[s]]
      && h'.states[s] == Shared(h.states[s].borrows - 1, h.states[s].alive, h.states[s].owner)
  {
  }

  /** What a call on a reference whose state is alive comes to. */
  function Lent(h: Heap, s: StateId, b: BorrowerId): Heap
    requires s in h.states
  {
    h.(borrowers := h.borrowers[b := s],
       states := h.states[s := Shared(h.states[s].borrows + 1, h.states[s].alive, h.states[s].owner)])
  }

  /** A reference lends, by TryBorrow or Borrow, if its state is alive. */
  lemma ReferenceLends(h: Heap, r: RefId, b: BorrowerId, x: Action)
    requires CanBorrow(h, r) && !Locked(h, h.refs[r]) && b !in h.borrowers && (x == TryBorrow(r) || x == Borrow(r))
    ensures Enabled(h, x) && Comes(h, Lent(h, h.refs[r].value, b))
  {
    var s := h.refs[r].value;
    var h1 := Step(h, x);
    if x.TryBorrow? {
      var h2 := Step(h1, Recheck(s));
      AddsOne(h, h2, s, b);
      hide Comes, Lent;
      ComesVia(h1, Recheck(s), Lent(h, s, b));
    } else {
      AddsOne(h, h1, s, b);
      hide Comes, Lent;
    }
    ComesVia(h, x, Lent(h, s, b));
  }

  lemma AddsOne(h: Heap, h1: Heap, s: StateId, b: BorrowerId)
    requires s in h.states && s !in h.attempts && b !in h.borrowers && h1 == h.(attempts := h.attempts[s := Adding])
    ensures Comes(h1, Lent(h, s, b))
  {
    assert h1.attempts - {s} == h.attempts;
    assert Step(h1, Add(s, b)) == Lent(h, s, b);
    IsThere(Lent(h, s, b));
    hide Comes, Lent, Step;
    ComesVia(h1, Add(s, b), Lent(h, s, b));
  }

  /** A move hands state and object to the new owner, empties the old one, and no borrower notices. */
  lemma MoveHands(h: Heap, from: OwnerId, to: OwnerId, b: BorrowerId)
    requires Inv(h) && Enabled(h, Move(from, to))
    ensures var h' := Step(h, Move(from, to));
      && h'.owners == h.owners[to := OwnerCell(h.owners[from].state, h.owners[from].owned, InUse)]
                              [from := OwnerCell(None, None, InUse)]
      && h'.borrowers == h.borrowers && h'.refs == h.refs && h'.states.Keys == h.states.Keys
      && (forall s <- h.states ::
            h'.states[s].borrows == h.states[s].borrows && h'.states[s].alive == h.states[s].alive)
      && (Known(h, b) && h.states[h.borrowers[b]].alive ==> Known(h', b) && Deref(h', b) == Deref(h, b))
  {
    assert OwnerOk(h, from);
    if Known(h, b) {
      assert StateOk(h, h.borrowers[b]);
      if h.states[h.borrowers[b]].owner in h.owners { assert OwnerOk(h, h.states[h.borrowers[b]].owner); }
    }
    hide Counted, Linked;
  }

  /** A destructor waits as long as there are borrowers; without any it ends with the state dead and the owner gone. */
  lemma DestructorAlone(h: Heap, o: OwnerId)
    requires InUseOwner(h, o)
    ensures var s := h.owners[o].state.value; var h1 := Step(h, Destruct(o));
      && (h.states[s].borrows > 0 ==> !Enabled(h1, PassCheck(o)))
      && (h.states[s].borrows == 0 ==>
            Comes(h, h.(owners := h.owners - {o}, states := h.states[s := Shared(0, false, h.states[s].owner)])))
  {
    var s := h.owners[o].state.value;
    var h1 := Step(h, Destruct(o));
    if h.states[s].borrows == 0 {
      var h2 := Step(h1, PassCheck(o));
      var h3 := Step(h2, StoreDead(o));
      assert h3 == h.(owners := h.owners - {o}, states := h.states[s := Shared(0, false, h.states[s].owner)]);
      IsThere(h3);
      hide Comes, Step;
      ComesVia(h2, StoreDead(o), h3);
      ComesVia(h1, PassCheck(o), h3);
      ComesVia(h, Destruct(o), h3);
    }
  }
}
