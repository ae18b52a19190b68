/** The ownership protocol in the form of its objects, each operation undisturbed. */
module OwnershipObjects {
  import opened Wrappers

  class OwnershipState<T> {
    var borrows: int
    var alive: bool
    var owner: Owner<T>

    constructor (owner: Owner<T>)
      ensures borrows == 0 && alive && this.owner == owner
    {
      borrows, alive, this.owner := 0, true, owner;
    }
  }

  class Owner<T> {
    var owned: Option<T>
    var state: OwnershipState?<T>

    /** Emptied by a move, or the one owner its alive state points to. */
    predicate Valid()
      reads this, state
    {
      if state == null then owned.None? else state.alive && state.owner == this && owned.Some?
    }

    constructor New(value: T)
      ensures Valid() && fresh(state) && state != null && state.borrows == 0 && owned == Some(value)
    {
      owned := Some(value);
      new;
      state := new OwnershipState<T>(this);
    }

    /** The move constructor: state and object pass to this owner, the other is left empty. */
    constructor MoveFrom(other: Owner<T>)
      requires other.Valid() && other.state != null
      modifies other, other.state`owner
      ensures Valid() && state == old(other.state) && owned == old(other.owned)
      ensures other.Valid() && other.state == null
      ensures state.borrows == old(other.state.borrows)
    {
      state := other.state;
      owned := other.owned;
      new;
      other.state := null;
      other.owned := None;
      state.owner := this;
    }

    method PerformBorrow() returns (b: Borrower<T>)
      requires Valid() && state != null
      modifies state`borrows
      ensures fresh(b) && b.state == state && state.borrows == old(state.borrows) + 1 && Valid()
    {
      b := new Borrower<T>.FromOwner(this);
    }

    /** One turn of the destructor's wait: as long as there are borrowers nothing happens, then the state is
        declared dead and the wait is over. */
    method Destroy() returns (done: bool)
      requires Valid()
      modifies if state == null then {} else {state}
      ensures done <==> state == null || old(state.borrows) <= 0
      ensures state != null ==>
        state.alive == !done && state.borrows == old(state.borrows) && state.owner == old(state.owner)
      ensures state == old(state) && owned == old(owned)
    {
      if state != null {
        if state.borrows > 0 {
          return false;
        }
        state.alive := false;
      }
      return true;
    }
  }

  class Borrower<T> {
    var state: OwnershipState<T>

    constructor FromOwner(owner: Owner<T>)
      requires owner.Valid() && owner.state != null
      modifies owner.state`borrows
      ensures state == owner.state && state.borrows == old(owner.state.borrows) + 1
    {
      state := owner.state;
      new;
      state.borrows := state.borrows + 1;
    }

    constructor Copy(other: Borrower<T>)
      modifies other.state`borrows
      ensures state == other.state && state.borrows == old(other.state.borrows) + 1
    {
      state := other.state;
      new;
      state.borrows := state.borrows + 1;
    }

    /** Whatever the current owner owns: after a move, the same object at its new owner. */
    method Dereference() returns (value: T)
      requires state.alive && state.owner.Valid() && state.owner.state == state
      ensures state.owner.owned == Some(value)
    {
      value := state.owner.owned.value;
    }

    method Drop()
      modifies state`borrows
      ensures state.borrows == old(state.borrows) - 1
    {
      state.borrows := state.borrows - 1;
    }
  }

  class Reference<T> {
    var state: OwnershipState?<T>

    constructor Empty()
      ensures state == null
    {
      state := null;
    }

    constructor FromBorrower(borrow: Borrower<T>)
      ensures state == borrow.state
    {
      state := borrow.state;
    }

    predicate CanBorrow()
      reads this, state
    {
      state != null && state.alive
    }

    /** Borrows exactly when the owner is alive, and otherwise changes nothing. */
    method TryBorrow() returns (b: Option<Borrower<T>>)
      requires CanBorrow() ==> state.owner.Valid() && state.owner.state == state
      modifies if state == null then {} else {state}
      ensures b.Some? <==> old(CanBorrow())
      ensures b.Some? ==> fresh(b.value) && b.value.state == state && state.borrows == old(state.borrows) + 1
      ensures b.None? && state != null ==> state.borrows == old(state.borrows)
      ensures state == old(state) && CanBorrow() == old(CanBorrow())
      ensures state != null ==> state.owner == old(state.owner)
    {
      if CanBorrow() {
        var borrower := state.owner.PerformBorrow();
        return Some(borrower);
      }
      return None;
    }
  }

  /** Moving an owner while it is borrowed: the borrower's next dereference finds the same object. */
  method MoveWhileBorrowed<T>(value: T) returns (before: T, after: T, owner: Owner<T>, borrower: Borrower<T>)
    ensures before == value && after == value
    ensures owner.Valid() && owner.state == borrower.state && borrower.state.borrows == 1
  {
    var first := new Owner<T>.New(value);
    borrower := first.PerformBorrow();
    before := borrower.Dereference();
    owner := new Owner<T>.MoveFrom(first);
    after := borrower.Dereference();
  }
}
