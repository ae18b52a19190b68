/** The condition that callers can keep to, no borrow through a reference under way in a destructor's window, is
    exact: every departure from it puts some borrower in danger. */
module BorrowWindows {
  import opened Wrappers
  import opened Ownership

  /** Steps that open a window or begin a borrow through a reference. */
  predicate Opens(x: Action) {
    x.PassCheck? || x.TryBorrow? || x.Borrow?
  }

  /** Some continuation without such steps leaves a borrower without a living owner. */
  ghost predicate Endangered(h: Heap) {
    exists xs :: Valid(h, xs) && (forall x <- xs :: !Opens(x)) && !BorrowersAlive(Last(h, xs))
  }

  lemma EndangeredSooner(h: Heap, x: Action)
    requires Enabled(h, x) && !Opens(x) && Endangered(Step(h, x))
    ensures Endangered(h)
  {
    var rest :| Valid(Step(h, x), rest) && (forall y <- rest :: !Opens(y)) && !BorrowersAlive(Last(Step(h, x), rest));
    var xs := [x] + rest;
    assert xs[1..] == rest;
    hide Step, BorrowersAlive, Opens, Enabled;
    assert Valid(h, xs) && Last(h, xs) == Last(Step(h, x), rest);
    assert forall y <- xs :: y == x || y in rest;
  }

  /** The store comes between the last read and the increment. */
  lemma AddingEndangers(h: Heap, o: OwnerId, s: StateId)
    requires Inv(h) && Enabled(h, StoreDead(o)) && h.owners[o].state == Some(s) && AtStage(h, s, Adding)
    ensures Endangered(h)
  {
    var b := FreshBorrower(h.borrowers.Keys);
    var dead := Step(h, StoreDead(o));
    var last := Step(dead, Add(s, b));
    assert last.borrowers[b] == s && !last.states[s].alive;
    assert Valid(last, []) && Last(last, []) == last;
    assert Endangered(last);
    hide Step, Endangered;
    EndangeredSooner(dead, Add(s, b));
    EndangeredSooner(h, StoreDead(o));
  }

  lemma AttemptInWindowEndangers(h: Heap, o: OwnerId, s: StateId)
    requires Inv(h) && Enabled(h, StoreDead(o)) && h.owners[o].state == Some(s) && s in h.attempts
    ensures Endangered(h)
  {
    assert OwnerOk(h, o);
    if h.attempts[s].Adding? {
      AddingEndangers(h, o, s);
    } else {
      var h' := Step(h, Recheck(s));
      StepKeepsInv(h, Recheck(s));
      AddingEndangers(h', o, s);
      EndangeredSooner(h, Recheck(s));
    }
  }

  lemma UncalmEndangers(h: Heap, x: Action)
    requires Inv(h) && Enabled(h, x) && !Calm(h, x)
    ensures Endangered(Step(h, x))
  {
    var h' := Step(h, x);
    StepKeepsInv(h, x);
    var o, s;
    if x.PassCheck? {
      o, s := x.owner, h.owners[x.owner].state.value;
    } else {
      s := h.refs[x.ref].value;
      o :| o in h.owners && h.owners[o].mode.PassedCheck? && h.owners[o].state == h.refs[x.ref];
    }
    hide Inv;
    AttemptInWindowEndangers(h', o, s);
  }

  lemma {:induction false} QuietIsSafe(h: Heap, xs: seq<Action>)
    requires Inv(h) && Sound(h) && QuietWindows(h) && Valid(h, xs) && forall x <- xs :: !Opens(x)
    ensures BorrowersAlive(Last(h, xs))
    decreases |xs|
  {
    if xs == [] {
    } else {
      assert !Opens(xs[0]);
      StepKeepsQuiet(h, xs[0]);
      StepKeepsInv(h, xs[0]);
      CalmKeepsSound(h, xs[0]);
      hide Inv, Sound, QuietWindows, Step;
      QuietIsSafe(Step(h, xs[0]), xs[1..]);
    }
  }

  lemma CalmKeepsSound(h: Heap, x: Action)
    requires Inv(h) && Sound(h) && QuietWindows(h) && Enabled(h, x)
    ensures Sound(Step(h, x))
  {
    if x.StoreDead? { StoreKeepsSound(h, x.owner); } else { OtherStepsKeepSound(h, x); }
  }

  /** A step keeps every borrower safe, whatever follows short of another read of a zero count or another borrow
      through a reference, if and only if it is calm. */
  lemma CalmIff(h: Heap, x: Action)
    requires Inv(h) && Sound(h) && QuietWindows(h) && Enabled(h, x)
    ensures Calm(h, x) <==> !Endangered(Step(h, x))
  {
    if Calm(h, x) {
      var h' := Step(h, x);
      StepKeepsQuiet(h, x);
      StepKeepsInv(h, x);
      CalmKeepsSound(h, x);
      forall xs | Valid(h', xs) && forall y <- xs :: !Opens(y) ensures BorrowersAlive(Last(h', xs)) {
        QuietIsSafe(h', xs);
      }
    } else {
      UncalmEndangers(h, x);
    }
  }

  ghost predicate NeverEndangered(h: Heap, xs: seq<Action>)
    requires Valid(h, xs)
    decreases |xs|
  {
    xs == [] || (!Endangered(Step(h, xs[0])) && NeverEndangered(Step(h, xs[0]), xs[1..]))
  }

  /** So no step of a run endangers a borrower if and only if the run is calm. */
  lemma {:induction false} CalmRunIff(h: Heap, xs: seq<Action>)
    requires Inv(h) && Sound(h) && QuietWindows(h) && Valid(h, xs)
    ensures AlwaysCalm(h, xs) <==> NeverEndangered(h, xs)
    decreases |xs|
  {
    if xs == [] {
    } else {
      CalmIff(h, xs[0]);
      if Calm(h, xs[0]) {
        StepKeepsQuiet(h, xs[0]);
        StepKeepsInv(h, xs[0]);
        CalmKeepsSound(h, xs[0]);
        hide Inv, Sound, QuietWindows, Step, Calm, Endangered;
        CalmRunIff(Step(h, xs[0]), xs[1..]);
      }
    }
  }
}
