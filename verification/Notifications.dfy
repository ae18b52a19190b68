/** Which listeners hear of a change to a property. */
module Notifications {
  import opened PropertyPaths
  import opened EventBroker

  /** The jobs created for a list of paths, in order. */
  function FiredFor(topics: Topics, alive: set<Listener>, paths: seq<string>, key: string): seq<EventJob> {
    if paths == [] then []
    else Fired(topics, alive, BuildTopicName(paths[0]), key) + FiredFor(topics, alive, paths[1..], key)
  }

  function Notified(topics: Topics, alive: set<Listener>, key: string): seq<EventJob> {
    FiredFor(topics, alive, Subpaths(key, '.'), key)
  }

  /** PropertyProvider, reduced to the broker it speaks to. */
  class PropertyProvider {
    const broker: JobBasedEventBroker

    constructor (broker: JobBasedEventBroker)
      ensures this.broker == broker
    {
      this.broker := broker;
    }

    method RegisterListener(path: string, listener: Listener, alive: set<Listener>)
      requires listener in alive
      modifies broker
      ensures broker.eventListeners == Registered(old(broker.eventListeners), alive, listener, BuildTopicName(path))
    {
      broker.RegisterListener(listener, BuildTopicName(path), alive);
    }

    method NotifyListenersAboutChange(key: string, alive: set<Listener>) returns (kicked: seq<EventJob>)
      ensures kicked == Notified(broker.eventListeners, alive, key)
    {
      var paths := GetSubpaths(key, '.');
      hide Fired, Subpaths, BuildTopicName;
      kicked := [];
      for i := 0 to |paths|
        invariant kicked + FiredFor(broker.eventListeners, alive, paths[i..], key)
               == FiredFor(broker.eventListeners, alive, paths, key)
      {
        assert paths[i..][0] == paths[i] && paths[i..][1..] == paths[i + 1..];
        var fired := broker.FireEvent(BuildTopicName(paths[i]), key, alive);
        kicked := kicked + fired;
      }
    }
  }

  // ---- Jobs and subscriptions, counted ----

  function JobsTo(jobs: seq<EventJob>, l: Listener, topic: string): nat {
    if jobs == [] then 0
    else (if jobs[0].listener == l && jobs[0].topic == topic then 1 else 0) + JobsTo(jobs[1..], l, topic)
  }

  function Entries(list: seq<Listener>, l: Listener): nat {
    if list == [] then 0 else (if list[0] == l then 1 else 0) + Entries(list[1..], l)
  }

  lemma {:induction false} JobsToSplit(a: seq<EventJob>, b: seq<EventJob>, l: Listener, topic: string)
    ensures JobsTo(a + b, l, topic) == JobsTo(a, l, topic) + JobsTo(b, l, topic)
  {
    if a == [] {
      assert a + b == b;
    } else {
      assert (a + b)[1..] == a[1..] + b;
      JobsToSplit(a[1..], b, l, topic);
    }
  }

  lemma {:induction false} EntriesSplit(a: seq<Listener>, b: seq<Listener>, l: Listener)
    ensures Entries(a + b, l) == Entries(a, l) + Entries(b, l)
  {
    if a == [] {
      assert a + b == b;
    } else {
      assert (a + b)[1..] == a[1..] + b;
      EntriesSplit(a[1..], b, l);
    }
  }

  lemma {:induction false} EntriesMean(list: seq<Listener>, l: Listener)
    ensures Entries(list, l) > 0 <==> l in list
  {
    if list == [] {
    } else {
      EntriesMean(list[1..], l);
    }
  }

  lemma {:induction false} LivingEntries(list: seq<Listener>, alive: set<Listener>, l: Listener)
    ensures Entries(Living(list, alive), l) == if l in alive then Entries(list, l) else 0
  {
    if list == [] {
    } else {
      LivingEntries(list[1..], alive, l);
      EntriesSplit(if list[0] in alive then [list[0]] else [], Living(list[1..], alive), l);
    }
  }

  lemma {:induction false} JobsForEntries(list: seq<Listener>, topic: string, key: string, l: Listener, t: string)
    ensures JobsTo(JobsFor(list, topic, key), l, t) == if t == topic then Entries(list, l) else 0
  {
    if list == [] {
    } else {
      JobsForEntries(list[1..], topic, key, l, t);
      JobsToSplit([EventJob(list[0], topic, key)], JobsFor(list[1..], topic, key), l, t);
    }
  }

  /** An event fired for one path. */
  lemma FiredEntries(topics: Topics, alive: set<Listener>, q: string, key: string, l: Listener, p: string)
    ensures JobsTo(Fired(topics, alive, BuildTopicName(q), key), l, BuildTopicName(p))
         == if q == p && l in alive then Entries(Subscribers(topics, BuildTopicName(p)), l) else 0
  {
    var topic := BuildTopicName(q);
    JobsForEntries(Living(Subscribers(topics, topic), alive), topic, key, l, BuildTopicName(p));
    LivingEntries(Subscribers(topics, topic), alive, l);
    if topic == BuildTopicName(p) { TopicsDiffer(q, p); }
  }

  lemma {:induction false} FiredForEntries(topics: Topics, alive: set<Listener>, paths: seq<string>, key: string,
                                           l: Listener, p: string)
    ensures JobsTo(FiredFor(topics, alive, paths, key), l, BuildTopicName(p))
         == if l in alive then Times(paths, p) * Entries(Subscribers(topics, BuildTopicName(p)), l) else 0
  {
    if paths == [] {
    } else {
      var n := Entries(Subscribers(topics, BuildTopicName(p)), l);
      assert (1 + Times(paths[1..], p)) * n == n + Times(paths[1..], p) * n;
      FiredForEntries(topics, alive, paths[1..], key, l, p);
      JobsToSplit(Fired(topics, alive, BuildTopicName(paths[0]), key), FiredFor(topics, alive, paths[1..], key),
                  l, BuildTopicName(p));
      FiredEntries(topics, alive, paths[0], key, l, p);
      hide Fired, JobsTo, Entries, BuildTopicName;
    }
  }

  /** Setting a key creates, for a living listener and each of its entries under a path, one job if the path
      is the key or lies above it, and none otherwise. */
  lemma NotifiedEntries(topics: Topics, alive: set<Listener>, key: string, l: Listener, p: string)
    ensures JobsTo(Notified(topics, alive, key), l, BuildTopicName(p))
         == if key != "" && Covers(p, key) && l in alive then Entries(Subscribers(topics, BuildTopicName(p)), l) else 0
  {
    FiredForEntries(topics, alive, Subpaths(key, '.'), key, l, p);
    SubpathsAreThoseAbove(key, p);
  }

  lemma {:induction false} JobsForCarry(list: seq<Listener>, topic: string, key: string, job: EventJob)
    requires job in JobsFor(list, topic, key)
    ensures job.key == key && job.topic == topic && job.listener in list
  {
    if job == JobsFor(list, topic, key)[0] {
    } else {
      JobsForCarry(list[1..], topic, key, job);
    }
  }

  /** Whatever path the event is fired for, every job carries the key that was set. */
  lemma {:induction false} JobsCarryKey(topics: Topics, alive: set<Listener>, paths: seq<string>, key: string,
                                        job: EventJob)
    requires job in FiredFor(topics, alive, paths, key)
    ensures job.key == key && job.listener in alive
  {
    var first := Fired(topics, alive, BuildTopicName(paths[0]), key);
    if job in first {
      var list := Subscribers(topics, BuildTopicName(paths[0]));
      JobsForCarry(Living(list, alive), BuildTopicName(paths[0]), key, job);
      LivingMember(list, alive, job.listener);
    } else {
      JobsCarryKey(topics, alive, paths[1..], key, job);
    }
  }

  // ---- Runs ----

  /** A notification under way: the paths whose events have not been fired yet. */
  datatype Notice = Notice(key: string, rest: seq<string>)

  /** `born` is history: the listeners that have ever existed. */
  datatype World = World(topics: Topics, alive: set<Listener>, born: set<Listener>, notices: seq<Notice>)

  const START := World(map[], {}, {}, [])

  /** Born and Expire begin and end the life of a listener object. Setting a key begins a notification, whose
      events are fired one by one; anything may happen in between. */
  datatype Op =
    | Born(l: Listener)
    | Expire(l: Listener)
    | Register(l: Listener, path: string)
    | Set(key: string)
    | Fire(notice: nat)
    | CleanUp

  predicate Enabled(w: World, x: Op) {
    match x
    case Born(l) => l !in w.born
    case Register(l, _) => l in w.alive
    case Fire(n) => n < |w.notices| && w.notices[n].rest != []
    case _ => true
  }

  function Step(w: World, x: Op): World
    requires Enabled(w, x)
  {
    match x
    case Born(l) => w.(alive := w.alive + {l}, born := w.born + {l})
    case Expire(l) => w.(alive := w.alive - {l})
    case Register(l, p) => w.(topics := Registered(w.topics, w.alive, l, BuildTopicName(p)))
    case Set(key) => w.(notices := w.notices + [Notice(key, Subpaths(key, '.'))])
    case Fire(n) => w.(notices := w.notices[n := w.notices[n].(rest := w.notices[n].rest[1..])])
    case CleanUp => w.(topics := CleanedUp(w.topics, w.alive))
  }

  function JobsOf(w: World, x: Op): seq<EventJob>
    requires Enabled(w, x)
  {
    match x
    case Fire(n) => Fired(w.topics, w.alive, BuildTopicName(w.notices[n].rest[0]), w.notices[n].key)
    case _ => []
  }

  predicate Valid(w: World, xs: seq<Op>)
    decreases |xs|
  {
    xs == [] || (Enabled(w, xs[0]) && Valid(Step(w, xs[0]), xs[1..]))
  }

  function Last(w: World, xs: seq<Op>): World
    requires Valid(w, xs)
    decreases |xs|
  {
    if xs == [] then w else Last(Step(w, xs[0]), xs[1..])
  }

  function Jobs(w: World, xs: seq<Op>): seq<EventJob>
    requires Valid(w, xs)
    decreases |xs|
  {
    if xs == [] then [] else JobsOf(w, xs[0]) + Jobs(Step(w, xs[0]), xs[1..])
  }

  // ---- A listener has one entry under each path it is registered on ----

  predicate ListOk(w: World, list: seq<Listener>) {
    forall l <- list :: l in w.born && (l in w.alive ==> Entries(list, l) == 1)
  }

  predicate Inv(w: World) {
    w.alive <= w.born && forall t <- w.topics :: ListOk(w, w.topics[t])
  }

  lemma AppendOk(w: World, list: seq<Listener>, l: Listener)
    requires ListOk(w, list) && w.alive <= w.born && l in w.alive && !Has(list, w.alive, l.id)
    ensures ListOk(w, list + [l])
  {
    assert l !in list;
    EntriesMean(list, l);
    forall m <- list + [l] ensures m in w.born && (m in w.alive ==> Entries(list + [l], m) == 1) {
      EntriesSplit(list, [l], m);
    }
  }

  lemma LivingOk(w: World, list: seq<Listener>)
    requires ListOk(w, list)
    ensures ListOk(w, Living(list, w.alive))
  {
    forall m <- Living(list, w.alive) ensures m in w.born && (m in w.alive ==> Entries(Living(list, w.alive), m) == 1) {
      LivingMember(list, w.alive, m);
      LivingEntries(list, w.alive, m);
    }
  }

  lemma StepKeepsInv(w: World, x: Op)
    requires Inv(w) && Enabled(w, x)
    ensures Inv(Step(w, x))
  {
    match x
    case Register(l, p) =>
      var list := Subscribers(w.topics, BuildTopicName(p));
      if !Has(list, w.alive, l.id) { AppendOk(w, list, l); }
    case CleanUp =>
      forall t <- w.topics ensures ListOk(w, Living(w.topics[t], w.alive)) { LivingOk(w, w.topics[t]); }
    case _ =>
  }

  lemma {:induction false} RunKeepsInv(w: World, xs: seq<Op>)
    requires Inv(w) && Valid(w, xs)
    ensures Inv(Last(w, xs))
    decreases |xs|
  {
    if xs == [] {
    } else {
      StepKeepsInv(w, xs[0]);
      RunKeepsInv(Step(w, xs[0]), xs[1..]);
    }
  }

  predicate Subscribed(w: World, l: Listener, p: string) {
    l in w.alive && l in Subscribers(w.topics, BuildTopicName(p))
  }

  /** Whatever happened before, an uninterrupted notification creates exactly one job for a living listener on a
      path if the path is the key or a non-empty prefix of it ending before a dot, and none otherwise. */
  lemma NotifiedIffCovered(xs: seq<Op>, key: string, l: Listener, p: string)
    requires Valid(START, xs)
    ensures var w := Last(START, xs);
      JobsTo(Notified(w.topics, w.alive, key), l, BuildTopicName(p))
      == if Subscribed(w, l, p) && key != "" && Covers(p, key) then 1 else 0
  {
    RunKeepsInv(START, xs);
    var w := Last(START, xs);
    NotifiedEntries(w.topics, w.alive, key, l, p);
    EntriesMean(Subscribers(w.topics, BuildTopicName(p)), l);
  }

  // ---- Notifications whose events are fired between other operations ----

  /** How often notification n has fired, or is still going to fire, the event of path p. */
  function Fires(w: World, xs: seq<Op>, n: nat, p: string): nat
    requires Valid(w, xs)
    decreases |xs|
  {
    if xs == [] then if n < |w.notices| then Times(w.notices[n].rest, p) else 0
    else (if FiresPath(w, xs[0], n, p) then 1 else 0) + Fires(Step(w, xs[0]), xs[1..], n, p)
  }

  predicate FiresPath(w: World, x: Op, n: nat, p: string)
    requires Enabled(w, x)
  {
    x == Fire(n) && w.notices[n].rest[0] == p
  }

  /** The events of path p fired by notification n while l was subscribed to p. */
  function Heard(w: World, xs: seq<Op>, n: nat, l: Listener, p: string): nat
    requires Valid(w, xs)
    decreases |xs|
  {
    if xs == [] then 0
    else
      (if FiresPath(w, xs[0], n, p) && Subscribed(w, l, p) then 1 else 0)
      + Heard(Step(w, xs[0]), xs[1..], n, l, p)
  }

  /** The jobs for l on path p that notification n creates. */
  function JobsBy(w: World, xs: seq<Op>, n: nat, l: Listener, p: string): nat
    requires Valid(w, xs)
    decreases |xs|
  {
    if xs == [] then 0
    else
      (if xs[0] == Fire(n) then JobsTo(JobsOf(w, xs[0]), l, BuildTopicName(p)) else 0)
      + JobsBy(Step(w, xs[0]), xs[1..], n, l, p)
  }

  /** One event reaches a listener exactly if it is of a path the listener is subscribed to at that moment. */
  lemma FireReachesSubscribers(w: World, n: nat, l: Listener, p: string)
    requires Inv(w) && Enabled(w, Fire(n))
    ensures JobsTo(JobsOf(w, Fire(n)), l, BuildTopicName(p))
         == if FiresPath(w, Fire(n), n, p) && Subscribed(w, l, p) then 1 else 0
  {
    FiredEntries(w.topics, w.alive, w.notices[n].rest[0], w.notices[n].key, l, p);
    EntriesMean(Subscribers(w.topics, BuildTopicName(p)), l);
  }

  lemma {:induction false} HeardAreJobs(w: World, xs: seq<Op>, n: nat, l: Listener, p: string)
    requires Inv(w) && Valid(w, xs)
    ensures JobsBy(w, xs, n, l, p) == Heard(w, xs, n, l, p)
    decreases |xs|
  {
    if xs == [] {
    } else {
      StepKeepsInv(w, xs[0]);
      if xs[0] == Fire(n) { FireReachesSubscribers(w, n, l, p); }
      hide Inv, Step, JobsOf, FiresPath, Subscribed;
      HeardAreJobs(Step(w, xs[0]), xs[1..], n, l, p);
    }
  }

  lemma {:induction false} FiresFixed(w: World, xs: seq<Op>, n: nat, p: string)
    requires Valid(w, xs) && n < |w.notices|
    ensures Fires(w, xs, n, p) == Times(w.notices[n].rest, p)
    ensures n < |Last(w, xs).notices| && Last(w, xs).notices[n].key == w.notices[n].key
    decreases |xs|
  {
    if xs == [] {
    } else {
      FiresFixed(Step(w, xs[0]), xs[1..], n, p);
    }
  }

  /** Whatever is done between the events of a notification, it fires the event of each path above its key, and
      of no other, exactly once. */
  lemma {:induction false} FiresEachOnce(w: World, xs: seq<Op>, n: nat, p: string)
    requires Valid(w, xs) && |w.notices| <= n < |Last(w, xs).notices|
    ensures var key := Last(w, xs).notices[n].key;
      Fires(w, xs, n, p) == if key != "" && Covers(p, key) then 1 else 0
    decreases |xs|
  {
    var x, w' := xs[0], Step(w, xs[0]);
    if n < |w'.notices| {
      SubpathsAreThoseAbove(x.key, p);
      FiresFixed(w', xs[1..], n, p);
      hide Subpaths, Covers;
    } else {
      FiresEachOnce(w', xs[1..], n, p);
    }
  }

  ghost predicate SubscribedWhenFired(w: World, xs: seq<Op>, n: nat, l: Listener, p: string)
    requires Valid(w, xs)
    decreases |xs|
  {
    xs == [] ||
    ((FiresPath(w, xs[0], n, p) ==> Subscribed(w, l, p)) && SubscribedWhenFired(Step(w, xs[0]), xs[1..], n, l, p))
  }

  lemma {:induction false} HeardAll(w: World, xs: seq<Op>, n: nat, l: Listener, p: string)
    requires Valid(w, xs) && (n < |Last(w, xs).notices| ==> Last(w, xs).notices[n].rest == [])
    ensures Heard(w, xs, n, l, p) <= Fires(w, xs, n, p)
    ensures Heard(w, xs, n, l, p) == Fires(w, xs, n, p) <==> SubscribedWhenFired(w, xs, n, l, p)
    decreases |xs|
  {
    if xs == [] {
    } else {
      HeardAll(Step(w, xs[0]), xs[1..], n, l, p);
    }
  }

  /** A finished notification has created one job for a listener on a path if the path covers the key and the
      listener was subscribed to it when that event was fired, and none otherwise. */
  lemma InterruptedNotification(xs: seq<Op>, n: nat, l: Listener, p: string)
    requires Valid(START, xs) && n < |Last(START, xs).notices| && Last(START, xs).notices[n].rest == []
    ensures var key := Last(START, xs).notices[n].key;
      JobsBy(START, xs, n, l, p)
      == if key != "" && Covers(p, key) && SubscribedWhenFired(START, xs, n, l, p) then 1 else 0
  {
    HeardAreJobs(START, xs, n, l, p);
    FiresEachOnce(START, xs, n, p);
    HeardAll(START, xs, n, l, p);
  }

  /** So does every job of a notification fired event by event: it carries the key that began it. */
  lemma FiredCarryKey(w: World, n: nat, job: EventJob)
    requires Enabled(w, Fire(n)) && job in JobsOf(w, Fire(n))
    ensures job.key == w.notices[n].key && job.topic == BuildTopicName(w.notices[n].rest[0]) && job.listener in w.alive
  {
    var topic := BuildTopicName(w.notices[n].rest[0]);
    JobsForCarry(Living(Subscribers(w.topics, topic), w.alive), topic, w.notices[n].key, job);
    LivingMember(Subscribers(w.topics, topic), w.alive, job.listener);
  }

  // ---- Who is registered ----

  /** No two listeners with the id of l, among the entries and the registrations to come. */
  ghost predicate OwnId(w: World, xs: seq<Op>, l: Listener) {
    && (forall t, m :: t in w.topics && m in w.topics[t] && m.id == l.id ==> m == l)
    && (forall m, p :: Register(m, p) in xs && m.id == l.id ==> m == l)
  }

  lemma StepSubscribes(w: World, x: Op, l: Listener, p: string)
    requires Inv(w) && Enabled(w, x) && OwnId(w, [x], l)
    requires l in w.alive || l !in w.born
    ensures l in Step(w, x).alive ==>
              (l in Subscribers(Step(w, x).topics, BuildTopicName(p)) <==>
               l in Subscribers(w.topics, BuildTopicName(p)) || x == Register(l, p))
  {
    match x
    case Register(m, q) =>
      assert x in [x];
      if BuildTopicName(q) == BuildTopicName(p) { TopicsDiffer(p, q); }
      hide BuildTopicName;
    case CleanUp =>
      LivingMember(Subscribers(w.topics, BuildTopicName(p)), w.alive, l);
    case _ =>
  }

  lemma StepKeepsOwnId(w: World, x: Op, rest: seq<Op>, l: Listener)
    requires Enabled(w, x) && OwnId(w, [x] + rest, l)
    ensures OwnId(w, [x], l) && OwnId(Step(w, x), rest, l)
  {
    assert forall y :: y in [x] || y in rest ==> y in [x] + rest;
    if x.CleanUp? {
      forall t, m | t in w.topics && m in Living(w.topics[t], w.alive) ensures m in w.topics[t] {
        LivingMember(w.topics[t], w.alive, m);
      }
    }
  }

  lemma {:induction false} RunSubscribes(w: World, xs: seq<Op>, l: Listener, p: string)
    requires Inv(w) && Valid(w, xs) && OwnId(w, xs, l)
    requires l in w.alive || l !in w.born
    ensures l in Last(w, xs).alive ==>
              (l in Subscribers(Last(w, xs).topics, BuildTopicName(p)) <==>
               l in Subscribers(w.topics, BuildTopicName(p)) || Register(l, p) in xs)
    decreases |xs|
  {
    if xs == [] {
    } else {
      var w' := Step(w, xs[0]);
      assert xs == [xs[0]] + xs[1..];
      StepKeepsInv(w, xs[0]);
      StepKeepsOwnId(w, xs[0], xs[1..], l);
      StepSubscribes(w, xs[0], l, p);
      if l in w'.alive || l !in w'.born {
        hide Inv, OwnId, BuildTopicName, Step;
        RunSubscribes(w', xs[1..], l, p);
      } else {
        StaysDead(w', xs[1..], l);
      }
    }
  }

  lemma {:induction false} StaysDead(w: World, xs: seq<Op>, l: Listener)
    requires Valid(w, xs) && l in w.born && l !in w.alive
    ensures l !in Last(w, xs).alive
    decreases |xs|
  {
    if xs == [] {
    } else {
      StaysDead(Step(w, xs[0]), xs[1..], l);
    }
  }

  /** A living listener whose id is its own gets exactly one job for a change of a key if it has been registered
      on the key or on a non-empty prefix of it ending before a dot, and none otherwise. */
  lemma NotifiedIffRegistered(xs: seq<Op>, key: string, l: Listener, p: string)
    requires Valid(START, xs) && OwnId(START, xs, l)
    ensures var w := Last(START, xs);
      JobsTo(Notified(w.topics, w.alive, key), l, BuildTopicName(p))
      == if l in w.alive && Register(l, p) in xs && key != "" && Covers(p, key) then 1 else 0
  {
    NotifiedIffCovered(xs, key, l, p);
    RunSubscribes(START, xs, l, p);
    hide BuildTopicName;
    assert START.topics == map[];
  }

  /** A new listener registered on a path hears of every key the path covers. */
  lemma NewListenerHears(l: Listener, p: string, key: string)
    requires key != "" && Covers(p, key)
    ensures Valid(START, [Born(l), Register(l, p)])
    ensures var w := Last(START, [Born(l), Register(l, p)]);
      JobsTo(Notified(w.topics, w.alive, key), l, BuildTopicName(p)) == 1
  {
    var xs := [Born(l), Register(l, p)];
    var w1 := Step(START, xs[0]);
    var w2 := Step(w1, xs[1]);
    var none: seq<Op> := [];
    assert xs[1..] == [Register(l, p)] && xs[1..][1..] == none;
    assert Valid(w2, none) && Last(w2, none) == w2;
    assert Valid(w1, xs[1..]) && Last(w1, xs[1..]) == w2;
    assert Last(START, xs) == w2;
    assert w2.alive == {l} && xs[1] in xs;
    hide Covers, BuildTopicName, Subpaths;
    NotifiedIffRegistered(xs, key, l, p);
  }

  // ---- Cleaning up is invisible ----

  /** The same living subscribers everywhere. */
  ghost predicate Alike(w: World, v: World) {
    && w.alive == v.alive && w.born == v.born && w.notices == v.notices
    && forall t :: Living(Subscribers(w.topics, t), w.alive) == Living(Subscribers(v.topics, t), v.alive)
  }

  lemma {:induction false} LivingShrinks(list: seq<Listener>, before: set<Listener>, after: set<Listener>)
    requires after <= before
    ensures Living(Living(list, before), after) == Living(list, after)
  {
    if list == [] {
    } else {
      LivingShrinks(list[1..], before, after);
      LivingSplit(if list[0] in before then [list[0]] else [], Living(list[1..], before), after);
    }
  }

  lemma {:induction false} LivingIgnoresStrangers(list: seq<Listener>, alive: set<Listener>, l: Listener)
    requires l !in list
    ensures Living(list, alive + {l}) == Living(list, alive)
  {
    if list == [] {
    } else {
      LivingIgnoresStrangers(list[1..], alive, l);
    }
  }

  lemma HasIsAboutTheLiving(list: seq<Listener>, alive: set<Listener>, id: string)
    ensures Has(list, alive, id) <==> exists l <- Living(list, alive) :: l.id == id
  {
    forall l: Listener ensures l in Living(list, alive) <==> l in list && l in alive { LivingMember(list, alive, l); }
  }

  lemma StepKeepsAlike(w: World, v: World, x: Op)
    requires Inv(w) && Inv(v) && Alike(w, v) && Enabled(w, x)
    ensures Enabled(v, x) && Alike(Step(w, x), Step(v, x))
  {
    forall t ensures Living(Subscribers(Step(w, x).topics, t), Step(w, x).alive)
                  == Living(Subscribers(Step(v, x).topics, t), Step(v, x).alive) {
      LookAlike(w, v, x, t);
    }
    hide Inv, Living, Subscribers;
  }

  lemma RegisterAlike(w: World, v: World, l: Listener, p: string, t: string)
    requires Alike(w, v) && l in w.alive
    ensures Living(Subscribers(Registered(w.topics, w.alive, l, p), t), w.alive)
         == Living(Subscribers(Registered(v.topics, v.alive, l, p), t), v.alive)
  {
    var a, b := Subscribers(w.topics, p), Subscribers(v.topics, p);
    assert Living(a, w.alive) == Living(b, w.alive);
    assert Living(Subscribers(w.topics, t), w.alive) == Living(Subscribers(v.topics, t), v.alive);
    HasIsAboutTheLiving(a, w.alive, l.id);
    HasIsAboutTheLiving(b, w.alive, l.id);
    LivingSplit(a, [l], w.alive);
    LivingSplit(b, [l], w.alive);
    hide Living, Has;
  }

  lemma LookAlike(w: World, v: World, x: Op, t: string)
    requires Inv(w) && Inv(v) && Alike(w, v) && Enabled(w, x) && Enabled(v, x)
    ensures Living(Subscribers(Step(w, x).topics, t), Step(w, x).alive)
         == Living(Subscribers(Step(v, x).topics, t), Step(v, x).alive)
  {
    hide Living, Registered, BuildTopicName;
    var a, b := Subscribers(w.topics, t), Subscribers(v.topics, t);
    assert Living(a, w.alive) == Living(b, w.alive);
    match x
    case Born(l) =>
      LivingIgnoresStrangers(a, w.alive, l);
      LivingIgnoresStrangers(b, w.alive, l);
    case Expire(l) =>
      LivingShrinks(a, w.alive, w.alive - {l});
      LivingShrinks(b, w.alive, w.alive - {l});
    case Register(l, p) => RegisterAlike(w, v, l, BuildTopicName(p), t);
    case Set(_) =>
    case Fire(_) =>
    case CleanUp => CleanedUpAlike(w, v, t);
  }

  lemma CleanedUpAlike(w: World, v: World, t: string)
    requires Alike(w, v)
    ensures Living(Subscribers(CleanedUp(w.topics, w.alive), t), w.alive)
         == Living(Subscribers(CleanedUp(v.topics, v.alive), t), v.alive)
  {
    LivingShrinks(Subscribers(w.topics, t), w.alive, w.alive);
    LivingShrinks(Subscribers(v.topics, t), v.alive, v.alive);
    assert Living(Subscribers(w.topics, t), w.alive) == Living(Subscribers(v.topics, t), v.alive);
  }

  lemma CleanUpKeepsAlike(w: World, v: World)
    requires Alike(w, v)
    ensures Alike(Step(w, CleanUp), v)
  {
    forall t ensures Living(Subscribers(CleanedUp(w.topics, w.alive), t), w.alive)
                  == Living(Subscribers(w.topics, t), w.alive) {
      LivingShrinks(Subscribers(w.topics, t), w.alive, w.alive);
    }
  }

  lemma JobsAlike(w: World, v: World, x: Op)
    requires Alike(w, v) && Enabled(w, x)
    ensures Enabled(v, x) && JobsOf(w, x) == JobsOf(v, x)
  {
    if x.Fire? {
      var topic := BuildTopicName(w.notices[x.notice].rest[0]);
      assert Living(Subscribers(w.topics, topic), w.alive) == Living(Subscribers(v.topics, topic), v.alive);
    }
  }

  function WithoutCleanUps(xs: seq<Op>): seq<Op> {
    if xs == [] then [] else (if xs[0].CleanUp? then [] else [xs[0]]) + WithoutCleanUps(xs[1..])
  }

  lemma {:induction false} CleanUpsAreInvisible(w: World, v: World, xs: seq<Op>)
    requires Inv(w) && Inv(v) && Alike(w, v) && Valid(w, xs)
    ensures Valid(v, WithoutCleanUps(xs)) && Jobs(w, xs) == Jobs(v, WithoutCleanUps(xs))
    decreases |xs|
  {
    if xs == [] {
    } else {
      var x, rest := xs[0], xs[1..];
      StepKeepsInv(w, x);
      if x.CleanUp? {
        CleanUpKeepsAlike(w, v);
        hide Inv, Alike, Step;
        CleanUpsAreInvisible(Step(w, x), v, rest);
        assert WithoutCleanUps(xs) == WithoutCleanUps(rest);
        assert Jobs(w, xs) == Jobs(Step(w, x), rest);
      } else {
        StepKeepsAlike(w, v, x);
        StepKeepsInv(v, x);
        JobsAlike(w, v, x);
        hide Inv, Alike, Step;
        CleanUpsAreInvisible(Step(w, x), Step(v, x), rest);
        assert WithoutCleanUps(xs) == [x] + WithoutCleanUps(rest);
        assert ([x] + WithoutCleanUps(rest))[1..] == WithoutCleanUps(rest);
      }
    }
  }

  /** Running the clean-up at any points of any run creates and prevents no job. */
  lemma CleanUpChangesNothing(xs: seq<Op>)
    requires Valid(START, xs)
    ensures Valid(START, WithoutCleanUps(xs)) && Jobs(START, xs) == Jobs(START, WithoutCleanUps(xs))
  {
    CleanUpsAreInvisible(START, START, xs);
  }
}
