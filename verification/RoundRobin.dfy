/** Round-robin selection of service executors, and its fairness. */
module RoundRobin {
  import opened Wrappers

  datatype Executor = Executor(id: string, callable: bool, local: bool)

  predicate Eligible(e: Executor, onlyLocal: bool) {
    e.callable && (onlyLocal ==> e.local)
  }

  function Min(a: nat, b: nat): nat {
    if a < b then a else b
  }

  /** One round trip at most: the index found, and the last index afterwards. */
  function Scan(es: seq<Executor>, onlyLocal: bool, last: nat, tries: nat): (Option<nat>, nat)
    decreases |es| - tries
  {
    if tries >= |es| then (None, last)
    else
      var next := (Min(|es| - 1, last) + 1) % |es|;
      if Eligible(es[next], onlyLocal) then (Some(next), next) else Scan(es, onlyLocal, next, tries + 1)
  }

  function Select(es: seq<Executor>, onlyLocal: bool, last: nat): (Option<nat>, nat) {
    Scan(es, onlyLocal, last, 0)
  }

  function WithoutId(es: seq<Executor>, id: string): seq<Executor> {
    if es == [] then [] else (if es[0].id == id then [] else [es[0]]) + WithoutId(es[1..], id)
  }

  ghost predicate UniqueIds(es: seq<Executor>) {
    forall i, j :: 0 <= i < j < |es| ==> es[i].id != es[j].id
  }

  /** The positions of es, counted from `base`, of the executors that do not have the id. */
  function KeptFrom(es: seq<Executor>, id: string, base: nat): seq<nat> {
    if es == [] then [] else (if es[0].id == id then [] else [base]) + KeptFrom(es[1..], id, base + 1)
  }

  lemma {:induction false} KeptPositions(es: seq<Executor>, id: string, base: nat, n: nat)
    ensures n in KeptFrom(es, id, base) <==> base <= n < base + |es| && es[n - base].id != id
  {
    if es == [] {
    } else {
      KeptPositions(es[1..], id, base + 1, n);
    }
  }

  lemma {:induction false} KeptCount(es: seq<Executor>, id: string, base: nat)
    ensures |WithoutId(es, id)| == |KeptFrom(es, id, base)|
  {
    if es == [] {
    } else {
      KeptCount(es[1..], id, base + 1);
    }
  }

  /** The k-th executor left is the one at the k-th kept position, and kept positions strictly increase. */
  lemma {:induction false} WithoutIdKeepsOrder(es: seq<Executor>, id: string, base: nat, k: nat)
    requires k < |WithoutId(es, id)|
    ensures |WithoutId(es, id)| == |KeptFrom(es, id, base)|
    ensures base <= KeptFrom(es, id, base)[k] < base + |es|
    ensures WithoutId(es, id)[k] == es[KeptFrom(es, id, base)[k] - base]
    ensures k > 0 ==> KeptFrom(es, id, base)[k - 1] < KeptFrom(es, id, base)[k]
  {
    KeptCount(es, id, base);
    if es[0].id == id {
      WithoutIdKeepsOrder(es[1..], id, base + 1, k);
    } else if k > 0 {
      assert WithoutId(es, id)[k] == WithoutId(es[1..], id)[k - 1];
      assert KeptFrom(es, id, base)[k] == KeptFrom(es[1..], id, base + 1)[k - 1];
      WithoutIdKeepsOrder(es[1..], id, base + 1, k - 1);
    }
  }

  /** Exactly the executors with another id are left. */
  lemma {:induction false} WithoutIdMeans(es: seq<Executor>, id: string, e: Executor)
    ensures e in WithoutId(es, id) <==> e in es && e.id != id
  {
    if es == [] {
    } else {
      WithoutIdMeans(es[1..], id, e);
    }
  }

  lemma {:induction false} WithoutIdKeepsUnique(es: seq<Executor>, id: string)
    requires UniqueIds(es)
    ensures UniqueIds(WithoutId(es, id))
  {
    if es == [] {
    } else {
      WithoutIdKeepsUnique(es[1..], id);
      forall e | e in WithoutId(es[1..], id) ensures e.id != es[0].id {
        WithoutIdMeans(es[1..], id, e);
      }
    }
  }

  class RoundRobinServiceCaller {
    var executors: seq<Executor>
    var lastIndex: nat

    constructor ()
      ensures executors == [] && lastIndex == 0
    {
      executors, lastIndex := [], 0;
    }

    /** A second executor with the same id is not added. */
    method AddExecutor(executor: Executor)
      requires UniqueIds(executors)
      modifies this`executors
      ensures UniqueIds(executors)
      ensures executors == if exists e :: e in old(executors) && e.id == executor.id
                           then old(executors) else old(executors) + [executor]
    {
      var i := 0;
      while i < |executors|
        invariant 0 <= i <= |executors|
        invariant forall j :: 0 <= j < i ==> executors[j].id != executor.id
      {
        if executor.id == executors[i].id {
          return;
        }
        i := i + 1;
      }
      executors := executors + [executor];
    }

    method RemoveExecutor(id: string)
      modifies this`executors
      ensures executors == WithoutId(old(executors), id)
      ensures forall e :: e in executors <==> e in old(executors) && e.id != id
      ensures UniqueIds(old(executors)) ==> UniqueIds(executors)
    {
      var kept, rest := [], executors;
      while rest != []
        invariant kept + WithoutId(rest, id) == WithoutId(executors, id)
        decreases |rest|
      {
        if rest[0].id != id {
          kept := kept + [rest[0]];
        }
        rest := rest[1..];
      }
      forall e: Executor ensures e in kept <==> e in executors && e.id != id { WithoutIdMeans(executors, id, e); }
      if UniqueIds(executors) { WithoutIdKeepsUnique(executors, id); }
      executors := kept;
    }

    method SelectNextCallableExecutor(onlyLocal: bool) returns (found: Option<nat>)
      modifies this`lastIndex
      ensures (found, lastIndex) == Select(executors, onlyLocal, old(lastIndex))
    {
      var tries := 0;
      while tries < |executors|
        invariant 0 <= tries <= |executors|
        invariant Scan(executors, onlyLocal, lastIndex, tries) == Select(executors, onlyLocal, old(lastIndex))
      {
        var nextIndex := (Min(|executors| - 1, lastIndex) + 1) % |executors|;
        var stub := executors[nextIndex];
        tries := tries + 1;
        lastIndex := nextIndex;
        if stub.callable {
          var notLocalButRequiredToBe := onlyLocal && !stub.local;
          if notLocalButRequiredToBe {
            continue;
          }
          return Some(nextIndex);
        }
      }
      return None;
    }
  }

  // ---- The next eligible executor in cyclic order ----

  /** The position d steps after start in a ring of n, for d at most n. */
  function After(start: nat, d: nat, n: nat): nat
    requires start < n && d <= n
  {
    if start + d < n then start + d else start + d - n
  }

  lemma NextIsAfter(start: nat, n: nat)
    requires start < n
    ensures (start + 1) % n == After(start, 1, n)
  {
    if start + 1 == n {
      assert (start + 1) % n == 0;
    } else {
      assert (start + 1) % n == start + 1;
    }
  }

  /** Going d steps from start reaches the first eligible executor on the way. */
  predicate FirstAfter(es: seq<Executor>, onlyLocal: bool, start: nat, d: nat)
    requires start < |es|
  {
    && 1 <= d <= |es| && Eligible(es[After(start, d, |es|)], onlyLocal)
    && forall t :: 1 <= t < d ==> !Eligible(es[After(start, t, |es|)], onlyLocal)
  }

  lemma {:induction false} ScanFindsFirst(es: seq<Executor>, onlyLocal: bool, start: nat, tries: nat, last: nat)
    requires start < |es| && tries <= |es|
    requires Min(|es| - 1, last) == After(start, tries, |es|)
    requires forall t :: 1 <= t <= tries ==> !Eligible(es[After(start, t, |es|)], onlyLocal)
    ensures var (found, last') := Scan(es, onlyLocal, last, tries);
      match found
      case None =>
        && (forall t :: 1 <= t <= |es| ==> !Eligible(es[After(start, t, |es|)], onlyLocal))
        && last' == if tries < |es| then start else last
      case Some(i) =>
        last' == i && exists d :: FirstAfter(es, onlyLocal, start, d) && i == After(start, d, |es|)
    decreases |es| - tries
  {
    if tries < |es| {
      var here := After(start, tries, |es|);
      var next := After(start, tries + 1, |es|);
      NextIsAfter(here, |es|);
      assert next == After(here, 1, |es|);
      if Eligible(es[next], onlyLocal) {
        assert FirstAfter(es, onlyLocal, start, tries + 1);
      } else {
        ScanFindsFirst(es, onlyLocal, start, tries + 1, next);
      }
    }
  }

  /** Selection answers the first eligible executor in cyclic order after the clamped last index, itself
      coming last, and nothing exactly when none is eligible. */
  lemma SelectsNextEligible(es: seq<Executor>, onlyLocal: bool, last: nat)
    requires es != []
    ensures var (found, last') := Select(es, onlyLocal, last); var start := Min(|es| - 1, last);
      match found
      case None => last' == start && forall i :: 0 <= i < |es| ==> !Eligible(es[i], onlyLocal)
      case Some(i) =>
        last' == i && exists d :: FirstAfter(es, onlyLocal, start, d) && i == After(start, d, |es|)
  {
    var start := Min(|es| - 1, last);
    ScanFindsFirst(es, onlyLocal, start, 0, last);
    if Select(es, onlyLocal, last).0.None? {
      forall i | 0 <= i < |es| ensures !Eligible(es[i], onlyLocal) {
        var t := if i > start then i - start else i + |es| - start;
        assert After(start, t, |es|) == i;
      }
    }
  }

  // ---- Fairness ----

  /** The eligible indices below n, in increasing order. */
  function Eligibles(es: seq<Executor>, onlyLocal: bool, n: nat): seq<nat>
    requires n <= |es|
  {
    if n == 0 then []
    else Eligibles(es, onlyLocal, n - 1) + if Eligible(es[n - 1], onlyLocal) then [n - 1] else []
  }

  lemma {:induction false} EligiblesMean(es: seq<Executor>, onlyLocal: bool, n: nat, i: nat)
    requires n <= |es|
    ensures i in Eligibles(es, onlyLocal, n) <==> i < n && Eligible(es[i], onlyLocal)
  {
    if n == 0 {
    } else {
      EligiblesMean(es, onlyLocal, n - 1, i);
    }
  }

  predicate Increasing(list: seq<nat>, n: nat) {
    && (forall x :: 0 <= x < |list| ==> list[x] < n)
    && (forall x, y :: 0 <= x < y < |list| ==> list[x] < list[y])
  }

  lemma {:induction false} EligiblesIncrease(es: seq<Executor>, onlyLocal: bool, n: nat)
    requires n <= |es|
    ensures Increasing(Eligibles(es, onlyLocal, n), n)
  {
    if n == 0 {
    } else {
      EligiblesIncrease(es, onlyLocal, n - 1);
    }
  }

  predicate FromOn(list: seq<nat>, k: nat, m: nat) {
    forall x :: k <= x < |list| ==> list[x] >= m
  }

  /** Those below m come first in the list. */
  lemma {:induction false} EligiblesPrefix(es: seq<Executor>, onlyLocal: bool, m: nat, n: nat)
    requires m <= n <= |es|
    ensures Eligibles(es, onlyLocal, m) <= Eligibles(es, onlyLocal, n)
    ensures FromOn(Eligibles(es, onlyLocal, n), |Eligibles(es, onlyLocal, m)|, m)
    decreases n
  {
    if m < n { EligiblesPrefix(es, onlyLocal, m, n - 1); }
  }

  function NextRank(r: nat, k: nat): nat {
    if r + 1 >= k then 0 else r + 1
  }

  /** The place in the list of eligible executors that selection moves to. */
  function RankAfterIndex(es: seq<Executor>, onlyLocal: bool, start: nat): nat
    requires start < |es|
  {
    var c := |Eligibles(es, onlyLocal, start + 1)|;
    if c < |Eligibles(es, onlyLocal, |es|)| then c else 0
  }

  /** Between the start and the executor of that rank nobody is eligible. */
  lemma RankIsFirstAfter(es: seq<Executor>, onlyLocal: bool, start: nat)
    requires start < |es| && Eligibles(es, onlyLocal, |es|) != []
    ensures var list := Eligibles(es, onlyLocal, |es|); var r := RankAfterIndex(es, onlyLocal, start);
      && r < |list| && list[r] < |es|
      && (list[r] > start ==> FirstAfter(es, onlyLocal, start, list[r] - start))
      && (list[r] <= start ==> FirstAfter(es, onlyLocal, start, list[r] + |es| - start))
  {
    var n, list := |es|, Eligibles(es, onlyLocal, |es|);
    var below, r := Eligibles(es, onlyLocal, start + 1), RankAfterIndex(es, onlyLocal, start);
    EligiblesIncrease(es, onlyLocal, n);
    EligiblesIncrease(es, onlyLocal, start + 1);
    EligiblesPrefix(es, onlyLocal, start + 1, n);
    assert r < |list|;
    var want := list[r];
    EligiblesMean(es, onlyLocal, n, want);
    var d := if want > start then want - start else want + n - start;
    hide Eligibles;
    assert After(start, d, n) == want;
    forall t | 1 <= t < d ensures !Eligible(es[After(start, t, n)], onlyLocal) {
      var i := After(start, t, n);
      EligiblesMean(es, onlyLocal, n, i);
      assert i !in list by {
        forall x | 0 <= x < |list| ensures list[x] != i {
          if x < |below| { assert list[x] == below[x] <= start; }
        }
      }
    }
  }

  lemma FirstIsUnique(es: seq<Executor>, onlyLocal: bool, start: nat, d: nat, e: nat)
    requires start < |es| && FirstAfter(es, onlyLocal, start, d) && FirstAfter(es, onlyLocal, start, e)
    ensures d == e
  {
  }

  lemma SelectByRank(es: seq<Executor>, onlyLocal: bool, last: nat)
    requires es != [] && Eligibles(es, onlyLocal, |es|) != []
    ensures var list := Eligibles(es, onlyLocal, |es|); var r := RankAfterIndex(es, onlyLocal, Min(|es| - 1, last));
      r < |list| && Select(es, onlyLocal, last) == (Some(list[r]), list[r])
  {
    var n, list, start := |es|, Eligibles(es, onlyLocal, |es|), Min(|es| - 1, last);
    SelectsNextEligible(es, onlyLocal, last);
    RankIsFirstAfter(es, onlyLocal, start);
    hide Eligibles, Scan, RankAfterIndex, FirstAfter;
    var want := list[RankAfterIndex(es, onlyLocal, start)];
    var d' := if want > start then want - start else want + n - start;
    assert FirstAfter(es, onlyLocal, start, d') && After(start, d', n) == want;
    var found := Select(es, onlyLocal, last).0;
    FirstIsEligible(es, onlyLocal, start, d');
    assert found.Some?;
    var d :| FirstAfter(es, onlyLocal, start, d) && found.value == After(start, d, n);
    FirstIsUnique(es, onlyLocal, start, d, d');
  }

  lemma FirstIsEligible(es: seq<Executor>, onlyLocal: bool, start: nat, d: nat)
    requires start < |es| && FirstAfter(es, onlyLocal, start, d)
    ensures exists i :: 0 <= i < |es| && Eligible(es[i], onlyLocal)
  {
  }

  /** After selecting the executor of rank r comes the one of the next rank, the first after the last. */
  lemma RankAfterRank(es: seq<Executor>, onlyLocal: bool, r: nat)
    requires r < |Eligibles(es, onlyLocal, |es|)|
    ensures var list := Eligibles(es, onlyLocal, |es|);
      list[r] < |es| && RankAfterIndex(es, onlyLocal, list[r]) == NextRank(r, |list|)
  {
    var n, list := |es|, Eligibles(es, onlyLocal, |es|);
    EligiblesIncrease(es, onlyLocal, n);
    var i := list[r];
    EligiblesPrefix(es, onlyLocal, i + 1, n);
    var below := Eligibles(es, onlyLocal, i + 1);
    EligiblesIncrease(es, onlyLocal, i + 1);
    hide Eligibles;
    assert |below| > r;
    assert below == list[..|below|];
    assert |below| == 0 || list[|below| - 1] == below[|below| - 1];
  }

  // ---- Ranks over many calls ----

  /** The rank selected after t more selections. */
  function RankAfter(r: nat, t: nat, k: nat): nat {
    if t == 0 then r else NextRank(RankAfter(r, t - 1, k), k)
  }

  lemma {:induction false} RankWithinRound(r: nat, t: nat, k: nat)
    requires r < k && t <= k
    ensures RankAfter(r, t, k) == if r + t < k then r + t else r + t - k
  {
    if t == 0 {
    } else {
      RankWithinRound(r, t - 1, k);
    }
  }

  lemma {:induction false} RankAfterSum(r: nat, s: nat, t: nat, k: nat)
    ensures RankAfter(r, s + t, k) == RankAfter(RankAfter(r, s, k), t, k)
    decreases t
  {
    if t == 0 {
    } else {
      RankAfterSum(r, s, t - 1, k);
    }
  }

  /** How often rank x is selected among n selections, the first of which is rank r. */
  function Hits(r: nat, n: nat, x: nat, k: nat): nat {
    if n == 0 then 0 else Hits(r, n - 1, x, k) + if RankAfter(r, n - 1, k) == x then 1 else 0
  }

  lemma {:induction false} HitsWithinRound(r: nat, n: nat, x: nat, k: nat)
    requires r < k && x < k && n <= k
    ensures Hits(r, n, x, k) == if (if x >= r then x - r else x + k - r) < n then 1 else 0
  {
    if n == 0 {
    } else {
      HitsWithinRound(r, n - 1, x, k);
      RankWithinRound(r, n - 1, k);
    }
  }

  lemma {:induction false} HitsSplit(r: nat, m: nat, n: nat, x: nat, k: nat)
    ensures Hits(r, m + n, x, k) == Hits(r, m, x, k) + Hits(RankAfter(r, m, k), n, x, k)
    decreases n
  {
    if n == 0 {
    } else {
      HitsSplit(r, m, n - 1, x, k);
      RankAfterSum(r, m, n - 1, k);
    }
  }

  lemma {:induction false} HitsAreEven(r: nat, n: nat, x: nat, y: nat, k: nat)
    requires r < k && x < k && y < k
    ensures -1 <= Hits(r, n, x, k) - Hits(r, n, y, k) <= 1
    decreases n
  {
    if n < k {
      HitsWithinRound(r, n, x, k);
      HitsWithinRound(r, n, y, k);
    } else {
      HitsSplit(r, k, n - k, x, k);
      HitsSplit(r, k, n - k, y, k);
      HitsWithinRound(r, k, x, k);
      HitsWithinRound(r, k, y, k);
      RankWithinRound(r, k, k);
      HitsAreEven(r, n - k, x, y, k);
    }
  }

  // ---- Many calls on a fixed list ----

  /** The last index before the n-th of a series of calls. */
  function LastBefore(es: seq<Executor>, onlyLocal: bool, last: nat, n: nat): nat {
    if n == 0 then last else Select(es, onlyLocal, LastBefore(es, onlyLocal, last, n - 1)).1
  }

  function Pick(es: seq<Executor>, onlyLocal: bool, last: nat, n: nat): Option<nat> {
    Select(es, onlyLocal, LastBefore(es, onlyLocal, last, n)).0
  }

  lemma {:induction false} PickIsRanked(es: seq<Executor>, onlyLocal: bool, last: nat, n: nat)
    requires es != [] && Eligibles(es, onlyLocal, |es|) != []
    ensures var list := Eligibles(es, onlyLocal, |es|); var k := |list|;
      var r := RankAfter(RankAfterIndex(es, onlyLocal, Min(|es| - 1, last)), n, k);
      r < k && Pick(es, onlyLocal, last, n) == Some(list[r]) && LastBefore(es, onlyLocal, last, n + 1) == list[r]
  {
    var list := Eligibles(es, onlyLocal, |es|);
    hide Select;
    SelectByRank(es, onlyLocal, LastBefore(es, onlyLocal, last, n));
    if n == 0 {
    } else {
      PickIsRanked(es, onlyLocal, last, n - 1);
      var r := RankAfter(RankAfterIndex(es, onlyLocal, Min(|es| - 1, last)), n - 1, |list|);
      RankAfterRank(es, onlyLocal, r);
    }
  }

  /** How often the executor at index i is picked by calls number from .. from + n. */
  function Picks(es: seq<Executor>, onlyLocal: bool, last: nat, from: nat, n: nat, i: nat): nat {
    if n == 0 then 0
    else
      Picks(es, onlyLocal, last, from, n - 1, i)
      + if Pick(es, onlyLocal, last, from + n - 1) == Some(i) then 1 else 0
  }

  lemma {:induction false} PicksAreHits(es: seq<Executor>, onlyLocal: bool, last: nat, from: nat, n: nat, x: nat)
    requires es != [] && x < |Eligibles(es, onlyLocal, |es|)|
    ensures var list := Eligibles(es, onlyLocal, |es|); var k := |list|;
      var r := RankAfter(RankAfterIndex(es, onlyLocal, Min(|es| - 1, last)), from, k);
      r < k && Picks(es, onlyLocal, last, from, n, list[x]) == Hits(r, n, x, k)
  {
    var list := Eligibles(es, onlyLocal, |es|);
    var first := RankAfterIndex(es, onlyLocal, Min(|es| - 1, last));
    EligiblesIncrease(es, onlyLocal, |es|);
    PickIsRanked(es, onlyLocal, last, from);
    if n == 0 {
    } else {
      PicksAreHits(es, onlyLocal, last, from, n - 1, x);
      PickIsRanked(es, onlyLocal, last, from + n - 1);
      RankAfterSum(first, from, n - 1, |list|);
      hide Eligibles, Pick, RankAfterIndex;
      var r := RankAfter(first, from + n - 1, |list|);
      assert list[r] == list[x] <==> r == x;
    }
  }

  /** With a fixed list and fixed eligibility, any k calls in a row, k being the number of eligible
      executors, pick each eligible executor exactly once. */
  lemma EveryRoundIsComplete(es: seq<Executor>, onlyLocal: bool, last: nat, from: nat, i: nat)
    requires i < |es| && Eligible(es[i], onlyLocal)
    ensures Picks(es, onlyLocal, last, from, |Eligibles(es, onlyLocal, |es|)|, i) == 1
  {
    var list := Eligibles(es, onlyLocal, |es|);
    EligiblesMean(es, onlyLocal, |es|, i);
    var x :| 0 <= x < |list| && list[x] == i;
    PicksAreHits(es, onlyLocal, last, from, |list|, x);
    HitsWithinRound(RankAfter(RankAfterIndex(es, onlyLocal, Min(|es| - 1, last)), from, |list|), |list|, x, |list|);
  }

  /** Over any number of calls, any two eligible executors are picked equally often, give or take one. */
  lemma SelectionIsFair(es: seq<Executor>, onlyLocal: bool, last: nat, from: nat, n: nat, i: nat, j: nat)
    requires i < |es| && Eligible(es[i], onlyLocal) && j < |es| && Eligible(es[j], onlyLocal)
    ensures -1 <= Picks(es, onlyLocal, last, from, n, i) - Picks(es, onlyLocal, last, from, n, j) <= 1
  {
    var list := Eligibles(es, onlyLocal, |es|);
    EligiblesMean(es, onlyLocal, |es|, i);
    EligiblesMean(es, onlyLocal, |es|, j);
    var x :| 0 <= x < |list| && list[x] == i;
    var y :| 0 <= y < |list| && list[y] == j;
    PicksAreHits(es, onlyLocal, last, from, n, x);
    PicksAreHits(es, onlyLocal, last, from, n, y);
    HitsAreEven(RankAfter(RankAfterIndex(es, onlyLocal, Min(|es| - 1, last)), from, |list|), n, x, y, |list|);
  }
}
