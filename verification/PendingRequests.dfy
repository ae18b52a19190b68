/** The table of requests awaiting a remote response: who tries to resolve the promise of an attempt, and how often.
    A request that is retried is sent again under the same transaction id, with a new promise and possibly to
    another endpoint. */
module PendingRequests {
  import opened Wrappers

  type Transaction = string
  type Endpoint = string
  type Content = string

  /** Every attempt has a promise of its own, which names it. */
  type Promise = nat

  datatype Outcome = Responded(content: Content) | Disconnected(endpoint: Endpoint) | SendFailed

  datatype Request = Request(transaction: Transaction, endpoint: Endpoint)

  datatype Entry = Entry(promise: Promise, endpoint: Endpoint)

  /** A promise taken from the table by somebody who has yet to resolve it. */
  datatype Debt = Debt(promise: Promise, outcome: Outcome)

  /** `resolutions` are the tries to resolve each promise: the first takes effect, any further one throws
      std::future_error, which Job::Execute catches. `sent` is history: all attempts so far. `inserting` holds
      those whose handler is registered but which are not in the table yet, `sending` those whose message is on
      its way; `marked` are the transactions whose request is marked as currently processed. */
  datatype State = State(
    table: map<Transaction, Entry>,
    inserting: set<Promise>,
    sending: set<Promise>,
    marked: set<Transaction>,
    debts: seq<Debt>,
    resolutions: map<Promise, seq<Outcome>>,
    sent: map<Promise, Request>)

  const START := State(map[], {}, {}, {}, [], map[], map[])

  /** Atomic steps; a section under the mutex is one. The handler of an attempt may run at any time after its
      registration and for any closed endpoint. */
  datatype Action =
    | Register(promise: Promise, request: Request)
    | Insert(promise: Promise)
    | Receive(transaction: Transaction, content: Content)
    | CloseRun(handler: Promise, closed: Endpoint)
    | SendDone(promise: Promise)
    | SendFail(promise: Promise)
    | Settle(debt: nat)

  /** A request is sent again only when it is not marked. */
  predicate Enabled(s: State, x: Action) {
    match x
    case Register(p, r) => p !in s.sent && r.transaction !in s.marked
    case Insert(p) => p in s.inserting && p in s.sent
    case Receive(_, _) => true
    case CloseRun(p, _) => p in s.sent
    case SendDone(p) => p in s.sending
    case SendFail(p) => p in s.sending && p in s.sent
    case Settle(i) => i < |s.debts| && s.debts[i].promise in s.sent
  }

  function Resolve(s: State, p: Promise, o: Outcome): map<Promise, seq<Outcome>> {
    if p in s.resolutions then s.resolutions[p := s.resolutions[p] + [o]] else s.resolutions
  }

  function Step(s: State, x: Action): State
    requires Enabled(s, x)
  {
    match x
    case Register(p, r) =>
      s.(marked := s.marked + {r.transaction}, inserting := s.inserting + {p}, sent := s.sent[p := r],
         resolutions := s.resolutions[p := []])
    case Insert(p) =>
      s.(inserting := s.inserting - {p}, table := s.table[s.sent[p].transaction := Entry(p, s.sent[p].endpoint)],
         sending := s.sending + {p})
    case Receive(t, content) =>
      if t !in s.table then s
      else s.(marked := s.marked - {t}, resolutions := Resolve(s, s.table[t].promise, Responded(content)),
              table := s.table - {t})
    case CloseRun(p, closed) =>
      var t := s.sent[p].transaction;
      if s.sent[p].endpoint != closed || t !in s.table then s
      else s.(table := s.table - {t}, debts := s.debts + [Debt(s.table[t].promise, Disconnected(closed))])
    case SendDone(p) => s.(sending := s.sending - {p})
    case SendFail(p) =>
      // whatever is in the table under this transaction is removed, and p is resolved all the same
      s.(sending := s.sending - {p}, table := s.table - {s.sent[p].transaction},
         debts := s.debts + [Debt(p, SendFailed)])
    case Settle(i) =>
      var d := s.debts[i];
      s.(debts := s.debts[..i] + s.debts[i + 1..], resolutions := Resolve(s, d.promise, d.outcome),
         marked := if d.outcome.SendFailed? then s.marked - {s.sent[d.promise].transaction} else s.marked)
  }

  predicate InTable(s: State, p: Promise) {
    p in s.sent && s.sent[p].transaction in s.table && s.table[s.sent[p].transaction].promise == p
  }

  predicate Waiting(s: State, p: Promise) {
    InTable(s, p) || p in s.inserting
  }

  // ---- Shape ----

  predicate AttemptOk(s: State, p: Promise)
    requires p in s.sent
  {
    && p in s.resolutions
    && (Waiting(s, p) ==> s.resolutions[p] == [])
    && (p in s.inserting ==> !InTable(s, p) && p !in s.sending)
  }

  predicate EntryOk(s: State, t: Transaction)
    requires t in s.table
  {
    var e := s.table[t];
    e.promise in s.sent && s.sent[e.promise] == Request(t, e.endpoint)
  }

  predicate DebtOk(s: State, d: Debt) {
    d.promise in s.sent && !Waiting(s, d.promise) && !d.outcome.Responded?
  }

  ghost predicate Inv(s: State) {
    && (forall p <- s.sent :: AttemptOk(s, p))
    && (forall t <- s.table :: EntryOk(s, t))
    && (forall i :: 0 <= i < |s.debts| ==> DebtOk(s, s.debts[i]))
    && s.inserting + s.sending <= s.sent.Keys && s.resolutions.Keys == s.sent.Keys
  }

  lemma StepKeepsAttempt(s: State, x: Action, p: Promise)
    requires Inv(s) && Enabled(s, x) && p in Step(s, x).sent
    ensures AttemptOk(Step(s, x), p)
  {
    if p in s.sent { assert AttemptOk(s, p); }
    if x.Settle? { assert DebtOk(s, s.debts[x.debt]); }
    if x.Receive? && x.transaction in s.table { assert EntryOk(s, x.transaction); }
    hide EntryOk, DebtOk;
  }

  lemma StepKeepsEntry(s: State, x: Action, t: Transaction)
    requires Inv(s) && Enabled(s, x) && t in Step(s, x).table
    ensures EntryOk(Step(s, x), t)
  {
    if t in s.table { assert EntryOk(s, t); }
    hide AttemptOk, DebtOk;
  }

  lemma StepKeepsDebt(s: State, x: Action, i: nat)
    requires Inv(s) && Enabled(s, x) && i < |Step(s, x).debts|
    ensures DebtOk(Step(s, x), Step(s, x).debts[i])
  {
    if x.CloseRun? && s.sent[x.handler].transaction in s.table { assert EntryOk(s, s.sent[x.handler].transaction); }
    if x.SendFail? { assert AttemptOk(s, x.promise); }
  }

  lemma StepKeepsInv(s: State, x: Action)
    requires Inv(s) && Enabled(s, x)
    ensures Inv(Step(s, x))
  {
    var s' := Step(s, x);
    forall p <- s'.sent ensures AttemptOk(s', p) { StepKeepsAttempt(s, x, p); }
    forall t <- s'.table ensures EntryOk(s', t) { StepKeepsEntry(s, x, t); }
    forall i | 0 <= i < |s'.debts| ensures DebtOk(s', s'.debts[i]) { StepKeepsDebt(s, x, i); }
    hide AttemptOk, EntryOk, DebtOk;
  }

  // ---- Who takes a promise ----

  function DebtsOf(debts: seq<Debt>, p: Promise): multiset<Outcome> {
    if debts == [] then multiset{}
    else (if debts[0].promise == p then multiset{debts[0].outcome} else multiset{}) + DebtsOf(debts[1..], p)
  }

  /** What a promise has been resolved with, and what it is going to be resolved with. */
  function Account(s: State, p: Promise): multiset<Outcome> {
    DebtsOf(s.debts, p) + Tried(s.resolutions, p)
  }

  function Tried(resolutions: map<Promise, seq<Outcome>>, p: Promise): multiset<Outcome> {
    if p in resolutions then multiset(resolutions[p]) else multiset{}
  }

  lemma ResolveTries(s: State, q: Promise, o: Outcome, p: Promise)
    requires q in s.resolutions
    ensures Tried(Resolve(s, q, o), p) == Tried(s.resolutions, p) + if q == p then multiset{o} else multiset{}
  {
  }

  /** The promise in the table that a handler run takes. */
  predicate Cancels(s: State, h: Promise, closed: Endpoint, p: Promise) {
    && h in s.sent && s.sent[h].endpoint == closed && InTable(s, p)
    && s.sent[p].transaction == s.sent[h].transaction
  }

  /** The outcome that a step, by taking a promise, settles on for it. */
  function Takes(s: State, x: Action, p: Promise): Option<Outcome> {
    match x
    case Receive(t, content) =>
      if InTable(s, p) && s.sent[p].transaction == t then Some(Responded(content)) else None
    case CloseRun(h, closed) => if Cancels(s, h, closed, p) then Some(Disconnected(closed)) else None
    case SendFail(q) => if q == p then Some(SendFailed) else None
    case _ => None
  }

  function Added(taken: Option<Outcome>): multiset<Outcome> {
    if taken.Some? then multiset{taken.value} else multiset{}
  }

  lemma {:induction false} DebtAdded(debts: seq<Debt>, d: Debt, p: Promise)
    ensures DebtsOf(debts + [d], p) == DebtsOf(debts, p) + if d.promise == p then multiset{d.outcome} else multiset{}
  {
    if debts == [] {
    } else {
      assert (debts + [d])[1..] == debts[1..] + [d];
      DebtAdded(debts[1..], d, p);
    }
  }

  lemma {:induction false} DebtPaid(debts: seq<Debt>, i: nat, p: Promise)
    requires i < |debts|
    ensures DebtsOf(debts, p) == DebtsOf(debts[..i] + debts[i + 1..], p)
                               + if debts[i].promise == p then multiset{debts[i].outcome} else multiset{}
  {
    var left := debts[..i] + debts[i + 1..];
    if i == 0 {
      assert left == debts[1..];
    } else {
      assert left[1..] == debts[1..][..i - 1] + debts[1..][i..];
      DebtPaid(debts[1..], i - 1, p);
    }
  }

  lemma {:induction false} NoDebts(debts: seq<Debt>, p: Promise)
    requires forall i :: 0 <= i < |debts| ==> debts[i].promise != p
    ensures DebtsOf(debts, p) == multiset{}
  {
    if debts == [] {
    } else {
      NoDebts(debts[1..], p);
    }
  }

  lemma RegisterAccounts(s: State, q: Promise, r: Request, p: Promise)
    requires Inv(s) && Enabled(s, Register(q, r))
    ensures Account(Step(s, Register(q, r)), p) == Account(s, p)
  {
  }

  lemma Regroup<T>(a: multiset<T>, b: multiset<T>, c: multiset<T>)
    ensures a + (c + b) == (a + b) + c == (a + c) + b
  {
  }

  lemma SettleAccounts(s: State, i: nat, p: Promise)
    requires Inv(s) && Enabled(s, Settle(i))
    ensures Account(Step(s, Settle(i)), p) == Account(s, p)
  {
    var d, s' := s.debts[i], Step(s, Settle(i));
    var left := s.debts[..i] + s.debts[i + 1..];
    var paid := if d.promise == p then multiset{d.outcome} else multiset{};
    assert s'.debts == left && s'.resolutions == Resolve(s, d.promise, d.outcome) && d.promise in s.resolutions;
    hide Step, DebtsOf, Tried, Resolve, Inv;
    DebtPaid(s.debts, i, p);
    ResolveTries(s, d.promise, d.outcome, p);
    Regroup(DebtsOf(left, p), paid, Tried(s.resolutions, p));
  }

  lemma ResolvedAccount(s: State, s': State, q: Promise, o: Outcome, p: Promise)
    requires q in s.resolutions && s'.debts == s.debts && s'.resolutions == Resolve(s, q, o)
    ensures Account(s', p) == Account(s, p) + if q == p then multiset{o} else multiset{}
  {
    hide DebtsOf, Tried, Resolve;
    ResolveTries(s, q, o, p);
    Regroup(DebtsOf(s.debts, p), if q == p then multiset{o} else multiset{}, Tried(s.resolutions, p));
  }

  lemma ReceiveAccounts(s: State, t: Transaction, content: Content, p: Promise)
    requires Inv(s)
    ensures Account(Step(s, Receive(t, content)), p) == Account(s, p) + Added(Takes(s, Receive(t, content), p))
  {
    hide Account, DebtsOf, Tried;
    if t in s.table {
      TableEntry(s, t);
      hide Inv;
      ResolvedAccount(s, Step(s, Receive(t, content)), s.table[t].promise, Responded(content), p);
    }
  }

  lemma OwedAccounts(s: State, s': State, d: Debt, p: Promise)
    requires s'.debts == s.debts + [d] && s'.resolutions == s.resolutions
    ensures Account(s', p) == Account(s, p) + if d.promise == p then multiset{d.outcome} else multiset{}
  {
    DebtAdded(s.debts, d, p);
    hide DebtsOf;
  }

  lemma TableEntry(s: State, t: Transaction)
    requires Inv(s) && t in s.table
    ensures EntryOk(s, t) && s.table[t].promise in s.resolutions
  {
  }

  lemma CloseAccounts(s: State, h: Promise, closed: Endpoint, p: Promise)
    requires Inv(s) && h in s.sent
    ensures Account(Step(s, CloseRun(h, closed)), p) == Account(s, p) + Added(Takes(s, CloseRun(h, closed), p))
  {
    var t := s.sent[h].transaction;
    hide Account, AttemptOk, DebtOk, Inv;
    if t in s.table && s.sent[h].endpoint == closed {
      TableEntry(s, t);
      assert Cancels(s, h, closed, p) <==> p == s.table[t].promise;
      OwedAccounts(s, Step(s, CloseRun(h, closed)), Debt(s.table[t].promise, Disconnected(closed)), p);
    } else {
      assert !Cancels(s, h, closed, p);
    }
  }

  lemma SendFailAccounts(s: State, q: Promise, p: Promise)
    requires Enabled(s, SendFail(q))
    ensures Account(Step(s, SendFail(q)), p) == Account(s, p) + Added(Takes(s, SendFail(q), p))
  {
    OwedAccounts(s, Step(s, SendFail(q)), Debt(q, SendFailed), p);
    hide Account;
  }

  lemma QuietAccounts(s: State, x: Action, p: Promise)
    requires Inv(s) && Enabled(s, x) && (x.Register? || x.Insert? || x.SendDone? || x.Settle?)
    ensures Account(Step(s, x), p) == Account(s, p)
  {
    match x
    case Register(q, r) => RegisterAccounts(s, q, r, p);
    case Settle(i) => SettleAccounts(s, i, p);
    case _ => hide Inv, DebtsOf, Tried;
  }

  /** A step adds to what is promised exactly the outcome of the promise it takes. */
  lemma StepAccounts(s: State, x: Action, p: Promise)
    requires Inv(s) && Enabled(s, x)
    ensures Account(Step(s, x), p) == Account(s, p) + Added(Takes(s, x, p))
  {
    hide Inv, Account, Step;
    match x
    case Receive(t, content) => ReceiveAccounts(s, t, content, p); hide Takes, Added;
    case CloseRun(h, closed) => CloseAccounts(s, h, closed, p); hide Takes, Added;
    case SendFail(q) => SendFailAccounts(s, q, p); hide Takes, Added;
    case _ => QuietAccounts(s, x, p);
  }

  /** Another attempt of the same transaction makes this one lose its entry, with nobody to resolve it. */
  predicate Drops(s: State, x: Action, p: Promise) {
    && (x.SendFail? || x.Insert?) && x.promise != p && x.promise in s.sent
    && InTable(s, p) && s.sent[x.promise].transaction == s.sent[p].transaction
  }

  /** Sending fails when the attempt has no entry of its own any more. */
  predicate Late(s: State, x: Action, p: Promise) {
    x == SendFail(p) && !InTable(s, p)
  }

  /** An attempt stops waiting exactly by a step that takes its promise or drops its entry. */
  lemma StepWaits(s: State, x: Action, p: Promise)
    requires Inv(s) && Enabled(s, x)
    ensures Waiting(Step(s, x), p) <==>
      (Waiting(s, p) && Takes(s, x, p).None? && !Drops(s, x, p)) || (x.Register? && x.promise == p)
    ensures x.Register? && x.promise == p ==> !Waiting(s, p)
    ensures p in Step(s, x).sent <==> p in s.sent || (x.Register? && x.promise == p)
  {
    if p in s.sent { assert AttemptOk(s, p); }
    if x.SendFail? { assert AttemptOk(s, x.promise); }
    hide EntryOk, DebtOk;
  }

  // ---- Whole runs ----

  predicate Valid(s: State, xs: seq<Action>)
    decreases |xs|
  {
    xs == [] || (Enabled(s, xs[0]) && Valid(Step(s, xs[0]), xs[1..]))
  }

  function Last(s: State, xs: seq<Action>): State
    requires Valid(s, xs)
    decreases |xs|
  {
    if xs == [] then s else Last(Step(s, xs[0]), xs[1..])
  }

  /** The outcomes that the steps of a run settle on for a promise, in order. */
  function Taken(s: State, xs: seq<Action>, p: Promise): seq<Outcome>
    requires Valid(s, xs)
    decreases |xs|
  {
    if xs == [] then []
    else
      var first := Takes(s, xs[0], p);
      (if first.Some? then [first.value] else []) + Taken(Step(s, xs[0]), xs[1..], p)
  }

  function LateFailures(s: State, xs: seq<Action>, p: Promise): nat
    requires Valid(s, xs)
    decreases |xs|
  {
    if xs == [] then 0
    else (if Late(s, xs[0], p) then 1 else 0) + LateFailures(Step(s, xs[0]), xs[1..], p)
  }

  function Losses(s: State, xs: seq<Action>, p: Promise): nat
    requires Valid(s, xs)
    decreases |xs|
  {
    if xs == [] then 0
    else (if Drops(s, xs[0], p) then 1 else 0) + Losses(Step(s, xs[0]), xs[1..], p)
  }

  lemma {:induction false} RunKeepsInv(s: State, xs: seq<Action>)
    requires Inv(s) && Valid(s, xs)
    ensures Inv(Last(s, xs))
    decreases |xs|
  {
    if xs == [] {
    } else {
      StepKeepsInv(s, xs[0]);
      RunKeepsInv(Step(s, xs[0]), xs[1..]);
    }
  }

  lemma {:induction false} RunAccounts(s: State, xs: seq<Action>, p: Promise)
    requires Inv(s) && Valid(s, xs)
    ensures Account(Last(s, xs), p) == Account(s, p) + multiset(Taken(s, xs, p))
    decreases |xs|
  {
    if xs == [] {
    } else {
      var s' := Step(s, xs[0]);
      StepKeepsInv(s, xs[0]);
      StepAccounts(s, xs[0], p);
      RunAccounts(s', xs[1..], p);
      var first := Takes(s, xs[0], p);
      assert multiset(if first.Some? then [first.value] else []) == Added(first);
      hide Inv, Account, Step;
    }
  }

  /** How many outcomes are still to come, late failures and losses aside. */
  function Open(s: State, p: Promise): nat {
    if Waiting(s, p) || p !in s.sent then 1 else 0
  }

  lemma StepOpens(s: State, x: Action, p: Promise)
    requires Inv(s) && Enabled(s, x)
    ensures Open(Step(s, x), p) + (if Takes(s, x, p).Some? then 1 else 0) + (if Drops(s, x, p) then 1 else 0)
         == Open(s, p) + if Late(s, x, p) then 1 else 0
  {
    StepWaits(s, x, p);
    if p in s.sent { assert AttemptOk(s, p); }
    hide EntryOk, DebtOk, Step;
  }

  lemma {:induction false} TakenCount(s: State, xs: seq<Action>, p: Promise)
    requires Inv(s) && Valid(s, xs)
    ensures |Taken(s, xs, p)| + Losses(s, xs, p) + Open(Last(s, xs), p) == Open(s, p) + LateFailures(s, xs, p)
    decreases |xs|
  {
    if xs == [] {
    } else {
      StepKeepsInv(s, xs[0]);
      StepOpens(s, xs[0], p);
      TakenCount(Step(s, xs[0]), xs[1..], p);
      hide Inv, Open, Step, Takes, Late, Drops;
    }
  }

  /** Sent, no longer waiting, and nobody about to resolve the promise. */
  predicate Settled(s: State, p: Promise) {
    p in s.sent && p in s.resolutions && !Waiting(s, p) && DebtsOf(s.debts, p) == multiset{}
  }

  /** Over any interleaving of responses (unknown and repeated ones included), handler runs, failures to send
      and renewed attempts: resolving a promise is tried once, plus once if sending failed late, less once if its
      entry was lost to another attempt of the same transaction. */
  lemma TriedOncePlusLate(xs: seq<Action>, p: Promise)
    requires Valid(START, xs) && Settled(Last(START, xs), p)
    ensures var os := Last(START, xs).resolutions[p];
      && |os| + Losses(START, xs, p) == 1 + LateFailures(START, xs, p)
      && multiset(os) == multiset(Taken(START, xs, p))
  {
    var s := Last(START, xs);
    RunAccounts(START, xs, p);
    TakenCount(START, xs, p);
    var os, taken := s.resolutions[p], Taken(START, xs, p);
    assert Account(s, p) == multiset(os) && Account(START, p) == multiset{};
    assert multiset(os) == multiset(taken);
    assert |os| == |multiset(os)| && |taken| == |multiset(taken)|;
    assert START.sent == map[];
    assert Open(START, p) == 1 && Open(s, p) == 0;
  }

  /** So that is tried exactly once if and only if it was late as often as it was lost; and if it was neither,
      then by the first step that took it. */
  lemma FirstTakerResolves(xs: seq<Action>, p: Promise)
    requires Valid(START, xs) && Settled(Last(START, xs), p)
    ensures var os := Last(START, xs).resolutions[p];
      && (|os| == 1 <==> LateFailures(START, xs, p) == Losses(START, xs, p))
      && (LateFailures(START, xs, p) == Losses(START, xs, p) == 0 ==>
            Taken(START, xs, p) != [] && os == [Taken(START, xs, p)[0]])
  {
    TriedOncePlusLate(xs, p);
    var os, taken := Last(START, xs).resolutions[p], Taken(START, xs, p);
    assert |multiset(os)| == |os| && |multiset(taken)| == |taken|;
    if |os| == 1 {
      assert os[0] in multiset(os);
    }
  }

  // ---- Attempts of the same transaction ----

  predicate Siblings(s: State, p: Promise, q: Promise) {
    p != q && p in s.sent && q in s.sent && s.sent[p].transaction == s.sent[q].transaction
  }

  predicate Sole(s: State, p: Promise) {
    forall q <- s.sent :: !Siblings(s, p, q)
  }

  /** Handling a failed send of one attempt while another one of the same transaction is waiting. */
  predicate Interferes(s: State, x: Action, p: Promise)
    requires Enabled(s, x)
  {
    Waiting(s, p) &&
    match x
    case SendFail(q) => Siblings(s, p, q)
    case Settle(i) => s.debts[i].outcome.SendFailed? && Siblings(s, p, s.debts[i].promise)
    case _ => false
  }

  predicate Mixes(s: State, x: Action, t: Transaction)
    requires Enabled(s, x)
  {
    exists p <- s.sent :: s.sent[p].transaction == t && Interferes(s, x, p)
  }

  /** No failed send of this transaction is handled while a later attempt is waiting. */
  predicate Unmixed(s: State, xs: seq<Action>, t: Transaction)
    requires Valid(s, xs)
    decreases |xs|
  {
    xs == [] || (!Mixes(s, xs[0], t) && Unmixed(Step(s, xs[0]), xs[1..], t))
  }

  /** At most one attempt of t is waiting, and t is marked meanwhile. */
  ghost predicate OneAtATime(s: State, t: Transaction) {
    && (forall p <- s.sent :: s.sent[p].transaction == t && Waiting(s, p) ==> t in s.marked)
    && (forall p <- s.sent, q <- s.sent :: Waiting(s, p) && Waiting(s, q) && s.sent[p].transaction == t ==>
          !Siblings(s, p, q))
  }

  lemma StepKeepsOneAtATime(s: State, x: Action, t: Transaction)
    requires Inv(s) && Enabled(s, x) && OneAtATime(s, t)
    requires !Mixes(s, x, t)
    ensures OneAtATime(Step(s, x), t)
    ensures forall p <- s.sent :: s.sent[p].transaction == t ==> !Drops(s, x, p)
  {
    var s' := Step(s, x);
    forall p <- s.sent | s.sent[p].transaction == t ensures !Drops(s, x, p) {
      assert !Interferes(s, x, p);
      if x.Insert? { assert AttemptOk(s, x.promise); }
    }
    forall p <- s'.sent | s'.sent[p].transaction == t && Waiting(s', p) ensures t in s'.marked {
      StepWaits(s, x, p);
      if p in s.sent { UnmarkedBy(s, x, t, p); }
    }
    forall p <- s'.sent, q <- s'.sent | Waiting(s', p) && Waiting(s', q) && s'.sent[p].transaction == t
      ensures !Siblings(s', p, q) {
      StepWaits(s, x, p);
      StepWaits(s, x, q);
      assert p in s.sent && q in s.sent ==> !Siblings(s, p, q);
    }
  }

  /** The mark of a waiting attempt goes only by interference. */
  lemma UnmarkedBy(s: State, x: Action, t: Transaction, p: Promise)
    requires Inv(s) && Enabled(s, x) && p in s.sent && s.sent[p].transaction == t && Waiting(s, p) && t in s.marked
    requires OneAtATime(s, t) && Waiting(Step(s, x), p) && !Interferes(s, x, p)
    ensures t in Step(s, x).marked
  {
    if x.Settle? { assert DebtOk(s, s.debts[x.debt]); }
    if t in s.table {
      assert EntryOk(s, t) && Waiting(s, s.table[t].promise);
      assert !Siblings(s, p, s.table[t].promise);
    }
  }

  lemma {:induction false} SentStays(s: State, xs: seq<Action>, p: Promise)
    requires Valid(s, xs) && p in s.sent
    ensures p in Last(s, xs).sent && Last(s, xs).sent[p] == s.sent[p]
    decreases |xs|
  {
    if xs == [] {
    } else {
      SentStays(Step(s, xs[0]), xs[1..], p);
    }
  }

  lemma {:induction false} UnmixedLosesNothing(s: State, xs: seq<Action>, t: Transaction, p: Promise)
    requires Inv(s) && OneAtATime(s, t) && Valid(s, xs) && Unmixed(s, xs, t)
    requires p in Last(s, xs).sent && Last(s, xs).sent[p].transaction == t
    ensures Losses(s, xs, p) == 0 && OneAtATime(Last(s, xs), t)
    decreases |xs|
  {
    if xs == [] {
    } else {
      if p in s.sent { SentStays(s, xs, p); }
      StepKeepsInv(s, xs[0]);
      StepKeepsOneAtATime(s, xs[0], t);
      UnmixedLosesNothing(Step(s, xs[0]), xs[1..], t, p);
      hide Inv, OneAtATime, Step, Mixes, InTable;
    }
  }

  /** Retries included: if no failed send is handled while a later attempt of the transaction is waiting, resolving
      a promise is tried exactly once if and only if sending did not fail late, and then by the first step that
      took it. */
  lemma UnmixedResolvedOnce(xs: seq<Action>, p: Promise)
    requires Valid(START, xs) && Settled(Last(START, xs), p)
    requires Unmixed(START, xs, Last(START, xs).sent[p].transaction)
    ensures var os := Last(START, xs).resolutions[p];
      && |os| == 1 + LateFailures(START, xs, p)
      && (|os| == 1 <==> LateFailures(START, xs, p) == 0)
      && (|os| == 1 ==> Taken(START, xs, p) != [] && os == [Taken(START, xs, p)[0]])
  {
    UnmixedLosesNothing(START, xs, Last(START, xs).sent[p].transaction, p);
    TriedOncePlusLate(xs, p);
    FirstTakerResolves(xs, p);
  }

  /** Transactions with a single attempt are never mixed. */
  lemma {:induction false} SoleIsUnmixed(s: State, xs: seq<Action>, p: Promise)
    requires Inv(s) && Valid(s, xs) && p in Last(s, xs).sent && Sole(Last(s, xs), p)
    ensures Unmixed(s, xs, Last(s, xs).sent[p].transaction)
    decreases |xs|
  {
    if xs == [] {
    } else {
      var t := Last(s, xs).sent[p].transaction;
      forall q <- s.sent | s.sent[q].transaction == t ensures !Interferes(s, xs[0], q) {
        SentStays(s, xs, q);
        assert !Siblings(Last(s, xs), p, q);
        forall r <- s.sent ensures !Siblings(s, q, r) {
          SentStays(s, xs, r);
          assert !Siblings(Last(s, xs), p, r);
        }
      }
      StepKeepsInv(s, xs[0]);
      SoleIsUnmixed(Step(s, xs[0]), xs[1..], p);
      hide Inv, Interferes, Step;
    }
  }

  /** An outcome is what happened: a response received for that transaction, a closed connection to an endpoint
      that an attempt of it went to, or a failure to send. */
  lemma {:induction false} TakenIsReal(s: State, xs: seq<Action>, p: Promise, o: Outcome)
    requires Inv(s) && Valid(s, xs) && o in Taken(s, xs, p)
    ensures p in Last(s, xs).sent && Real(Last(s, xs), xs, p, o)
    decreases |xs|
  {
    var x, s' := xs[0], Step(s, xs[0]);
    StepKeepsInv(s, x);
    if Takes(s, x, p) == Some(o) {
      SentStays(s, xs, p);
      if x.CloseRun? { SentStays(s, xs, x.handler); }
    } else {
      TakenIsReal(s', xs[1..], p, o);
    }
    hide Inv, Step;
  }

  ghost predicate Real(s: State, xs: seq<Action>, p: Promise, o: Outcome)
    requires p in s.sent
  {
    match o
    case Responded(content) => Receive(s.sent[p].transaction, content) in xs
    case Disconnected(e) =>
      exists h <- s.sent :: CloseRun(h, e) in xs && s.sent[h] == Request(s.sent[p].transaction, e)
    case SendFailed => SendFail(p) in xs
  }

  // ---- What a step leaves alone ----

  predicate Untouched(s: State, s': State, p: Promise) {
    && (InTable(s', p) <==> InTable(s, p))
    && (p in s.resolutions ==> p in s'.resolutions && s'.resolutions[p] == s.resolutions[p])
    && Account(s', p) == Account(s, p)
  }

  /** A handler run takes the promise that is in the table under its transaction, if the closed endpoint is
      its own, and leaves every other as it is. */
  lemma CloseAffectsIff(s: State, h: Promise, closed: Endpoint, p: Promise)
    requires Inv(s) && h in s.sent && p in s.sent
    ensures Untouched(s, Step(s, CloseRun(h, closed)), p) <==> !Cancels(s, h, closed, p)
  {
    if Cancels(s, h, closed, p) {
      hide Account, AttemptOk, EntryOk, DebtOk;
      assert !InTable(Step(s, CloseRun(h, closed)), p);
    } else {
      CloseLeaves(s, h, closed, p);
      hide Untouched;
    }
  }

  lemma CloseLeaves(s: State, h: Promise, closed: Endpoint, p: Promise)
    requires Inv(s) && h in s.sent && p in s.sent && !Cancels(s, h, closed, p)
    ensures Untouched(s, Step(s, CloseRun(h, closed)), p)
  {
    var x, s' := CloseRun(h, closed), Step(s, CloseRun(h, closed));
    assert (InTable(s', p) <==> InTable(s, p)) && s'.resolutions == s.resolutions;
    assert Added(Takes(s, x, p)) == multiset{};
    hide Account, Step, Takes, Added, InTable, Inv;
    CloseAccounts(s, h, closed, p);
  }

  /** So it affects no attempt sent to another endpoint whose transaction was not sent more than once. */
  lemma CloseAffectsItsOwn(s: State, h: Promise, closed: Endpoint, p: Promise)
    requires Inv(s) && h in s.sent && p in s.sent
    requires Sole(s, p) && (s.sent[p].endpoint != closed || h != p)
    ensures Untouched(s, Step(s, CloseRun(h, closed)), p)
  {
    CloseAffectsIff(s, h, closed, p);
    assert !Siblings(s, p, h);
    hide Untouched;
  }

  /** A response takes the promise in the table under the transaction it names, and no other. */
  lemma ResponseAffectsItsOwn(s: State, t: Transaction, content: Content, p: Promise)
    requires Inv(s) && p in s.sent
    ensures Untouched(s, Step(s, Receive(t, content)), p) <==> !(InTable(s, p) && s.sent[p].transaction == t)
  {
    if t in s.table { assert EntryOk(s, t); }
    hide DebtsOf, AttemptOk, DebtOk;
  }

  // ---- The asserted preconditions, and the mark on the request ----

  /** An attempt finds no entry of its transaction when it is inserted, and a request is marked when its
      response is processed. */
  lemma AssertionsHold(xs: seq<Action>, p: Promise)
    requires Valid(START, xs) && p in Last(START, xs).sent
    requires Unmixed(START, xs, Last(START, xs).sent[p].transaction)
    ensures var s := Last(START, xs); var t := s.sent[p].transaction;
      && (Enabled(s, Insert(p)) ==> t !in s.table)
      && (t in s.table ==> t in s.marked)
  {
    var s := Last(START, xs);
    var t := s.sent[p].transaction;
    RunKeepsInv(START, xs);
    UnmixedLosesNothing(START, xs, t, p);
    assert AttemptOk(s, p);
    if t in s.table {
      assert EntryOk(s, t) && InTable(s, s.table[t].promise);
      assert Waiting(s, p) ==> !Siblings(s, p, s.table[t].promise);
    }
  }

  predicate OnlyDisconnected(os: seq<Outcome>) {
    forall o <- os :: o.Disconnected?
  }

  ghost predicate MarkOk(s: State, p: Promise) {
    p in s.sent && p in s.resolutions ==> (s.sent[p].transaction in s.marked <==> OnlyDisconnected(s.resolutions[p]))
  }

  lemma OutcomeAdded(os: seq<Outcome>, o: Outcome)
    ensures OnlyDisconnected(os + [o]) <==> OnlyDisconnected(os) && o.Disconnected?
  {
    assert forall q <- os :: q in os + [o];
    assert o in os + [o];
  }

  lemma StepKeepsMark(s: State, x: Action, p: Promise)
    requires Inv(s) && Enabled(s, x) && MarkOk(s, p) && Sole(Step(s, x), p)
    ensures MarkOk(Step(s, x), p)
  {
    if x.Register? {
      assert !Siblings(Step(s, x), p, x.promise);
    } else if x.Receive? && x.transaction in s.table {
      assert EntryOk(s, x.transaction);
      assert !Siblings(Step(s, x), p, s.table[x.transaction].promise);
      if p in s.sent { OutcomeAdded(s.resolutions[p], Responded(x.content)); }
    } else if x.Settle? {
      assert !Siblings(Step(s, x), p, s.debts[x.debt].promise);
      if p in s.sent { OutcomeAdded(s.resolutions[p], s.debts[x.debt].outcome); }
    }
    hide OnlyDisconnected, AttemptOk, DebtOk;
  }

  lemma {:induction false} RunKeepsMark(s: State, xs: seq<Action>, p: Promise)
    requires Inv(s) && MarkOk(s, p) && Valid(s, xs) && Sole(Last(s, xs), p)
    ensures MarkOk(Last(s, xs), p)
    decreases |xs|
  {
    if xs == [] {
    } else {
      var s' := Step(s, xs[0]);
      forall q <- s'.sent ensures !Siblings(s', p, q) {
        if p in s'.sent { SentStays(s', xs[1..], p); }
        SentStays(s', xs[1..], q);
        assert !Siblings(Last(s, xs), p, q);
      }
      StepKeepsMark(s, xs[0], p);
      StepKeepsInv(s, xs[0]);
      RunKeepsMark(s', xs[1..], p);
      hide Inv, Step, MarkOk;
    }
  }

  /** The mark is taken off by a response and by a failure to send, but not by a closed connection: a request
      sent once and ended that way counts as currently processed for good. */
  lemma MarkedUnlessAnswered(xs: seq<Action>, p: Promise)
    requires Valid(START, xs) && p in Last(START, xs).sent && Sole(Last(START, xs), p)
    ensures var s := Last(START, xs);
      p in s.resolutions && (s.sent[p].transaction in s.marked <==> OnlyDisconnected(s.resolutions[p]))
  {
    RunKeepsInv(START, xs);
    RunKeepsMark(START, xs, p);
  }

  // ---- Runs that go wrong ----

  ghost predicate Reachable(s: State) {
    exists xs :: Valid(START, xs) && Last(START, xs) == s
  }

  lemma {:induction false} Extend(s: State, xs: seq<Action>, x: Action)
    requires Valid(s, xs) && Enabled(Last(s, xs), x)
    ensures Valid(s, xs + [x]) && Last(s, xs + [x]) == Step(Last(s, xs), x)
    decreases |xs|
  {
    if xs == [] {
      assert ([] + [x])[1..] == [];
    } else {
      Extend(Step(s, xs[0]), xs[1..], x);
      assert (xs + [x])[1..] == xs[1..] + [x];
    }
  }

  lemma Reach(s: State, x: Action) returns (s': State)
    requires Reachable(s) && Enabled(s, x)
    ensures s' == Step(s, x) && Reachable(s')
  {
    var xs :| Valid(START, xs) && Last(START, xs) == s;
    Extend(START, xs, x);
    s' := Step(s, x);
  }

  lemma Sending(r: Request) returns (s: State)
    ensures Reachable(s)
    ensures s == State(map[r.transaction := Entry(0, r.endpoint)], {}, {0}, {r.transaction}, [], map[0 := []],
                       map[0 := r])
  {
    assert Valid(START, []) && Last(START, []) == START;
    hide Reachable;
    s := Reach(START, Register(0, r));
    s := Reach(s, Insert(0));
  }

  /** The usual run: the response resolves the promise, takes off the mark and leaves nothing behind. */
  lemma AnswerResolves(r: Request, content: Content)
    ensures exists s :: Reachable(s) && s.table == map[] && s.marked == {} && s.sending == {} && s.debts == []
                        && s.resolutions == map[0 := [Responded(content)]] && s.sent == map[0 := r]
  {
    var s := Sending(r);
    hide Reachable;
    s := Reach(s, SendDone(0));
    s := Reach(s, Receive(r.transaction, content));
    assert s.resolutions[0] == [Responded(content)];
  }

  /** Two tries at one promise: the connection closes, then sending fails as well. */
  lemma LateFailureTriesTwice(r: Request)
    ensures exists s :: Reachable(s) && 0 in s.resolutions && s.resolutions[0] == [Disconnected(r.endpoint), SendFailed]
  {
    var s := Sending(r);
    hide Reachable;
    s := Reach(s, CloseRun(0, r.endpoint));
    s := Reach(s, Settle(0));
    s := Reach(s, SendFail(0));
    s := Reach(s, Settle(0));
  }

  /** A retry sent to another endpoint is cancelled by the handler of the attempt before it. */
  lemma StaleHandlerCancelsRetry(t: Transaction, first: Endpoint, second: Endpoint, content: Content)
    ensures exists s :: Reachable(s) && 1 in s.sent && s.sent[1] == Request(t, second)
                        && 1 in s.resolutions && s.resolutions[1] == [Disconnected(first)]
  {
    var s := Sending(Request(t, first));
    hide Reachable;
    s := Reach(s, Receive(t, content));
    s := Reach(s, Register(1, Request(t, second)));
    s := Reach(s, Insert(1));
    s := Reach(s, CloseRun(0, first));
    s := Reach(s, Settle(0));
  }

  /** A retry loses its entry to the failed send of the attempt before it: nobody ever resolves it. */
  lemma LateFailureLosesRetry(r: Request, content: Content)
    ensures exists s :: Reachable(s) && 1 in s.sent && Settled(s, 1) && s.resolutions[1] == []
  {
    var s := Sending(r);
    hide Reachable;
    s := Reach(s, Receive(r.transaction, content));
    s := Reach(s, Register(1, r));
    s := Reach(s, Insert(1));
    s := Reach(s, SendFail(0));
    NoDebts(s.debts, 1);
    assert Settled(s, 1);
  }
}
