/** Runs of the ownership protocol that go wrong. */
module OwnershipRuns {
  import opened Wrappers
  import opened Ownership

  ghost predicate Reachable(h: Heap) {
    exists xs :: Valid(EMPTY, xs) && Last(EMPTY, xs) == h
  }

  lemma {:induction false} Extend(h: Heap, xs: seq<Action>, x: Action)
    requires Valid(h, xs) && Enabled(Last(h, xs), x)
    ensures Valid(h, xs + [x]) && Last(h, xs + [x]) == Step(Last(h, xs), x)
    decreases |xs|
  {
    if xs == [] {
      assert ([] + [x])[1..] == [];
    } else {
      Extend(Step(h, xs[0]), xs[1..], x);
      assert (xs + [x])[1..] == xs[1..] + [x];
    }
  }

  lemma Reach(h: Heap, x: Action) returns (h': Heap)
    requires Reachable(h) && Enabled(h, x)
    ensures h' == Step(h, x) && Reachable(h')
  {
    var xs :| Valid(EMPTY, xs) && Last(EMPTY, xs) == h;
    Extend(EMPTY, xs, x);
    h' := Step(h, x);
  }

  predicate Dangling(h: Heap, b: BorrowerId) {
    Known(h, b) && !h.states[h.borrowers[b]].alive && Deref(h, b) == None
  }

  /** An owner with one reference, in its destructor. */
  lemma OwnerInDestructor() returns (h: Heap)
    ensures Reachable(h)
    ensures h == Heap(map[0 := Shared(0, true, 0)], map[0 := OwnerCell(Some(0), Some(7), Destructing)], map[],
                      map[0 := Some(0)], map[], map[0 := 7])
  {
    assert Valid(EMPTY, []) && Last(EMPTY, []) == EMPTY;
    hide Reachable;
    h := Reach(EMPTY, NewOwner(0, 0, 7));
    h := Reach(h, ReferOwner(0, 0));
    h := Reach(h, Destruct(0));
  }

  /** A reference that borrows inside the destructor's window is left with a borrower whose owner is gone. */
  lemma BorrowInTheWindowDangles()
    ensures exists h :: Reachable(h) && Dangling(h, 0)
  {
    var h := OwnerInDestructor();
    hide Reachable;
    h := Reach(h, PassCheck(0));
    h := Reach(h, TryBorrow(0));
    h := Reach(h, Recheck(0));
    h := Reach(h, Add(0, 0));
    h := Reach(h, StoreDead(0));
    assert Dangling(h, 0);
  }

  predicate DanglesLate(h: Heap) {
    && Enabled(h, StoreDead(0)) && h.owners[0].state == Some(0) && Shares(h, 0).borrows == 0
    && Enabled(Step(h, StoreDead(0)), Add(0, 0)) && Dangling(Step(Step(h, StoreDead(0)), Add(0, 0)), 0)
  }

  /** So is one whose borrow began before the destructor's last read: the store happens at a count of zero and
      no borrow begins in the window, yet the increment comes after it. */
  lemma LateIncrementDangles()
    ensures exists h :: Reachable(h) && DanglesLate(h)
  {
    var h := OwnerInDestructor();
    hide Reachable;
    h := Reach(h, TryBorrow(0));
    h := Reach(h, Recheck(0));
    h := Reach(h, PassCheck(0));
    assert DanglesLate(h);
  }

  /** A TryBorrow whose two reads the store separates throws instead of returning nothing. */
  lemma TryBorrowMayThrow()
    ensures exists h, s :: Reachable(h) && Enabled(h, Recheck(s)) && AnswerOf(h, Recheck(s)) == Some(Throws)
  {
    var h := OwnerInDestructor();
    hide Reachable;
    h := Reach(h, TryBorrow(0));
    h := Reach(h, PassCheck(0));
    h := Reach(h, StoreDead(0));
    assert AnswerOf(h, Recheck(0)) == Some(Throws);
  }
}
