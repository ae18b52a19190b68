/** Topics and their subscribers, held by weak references, as JobBasedEventBroker keeps them. */
module EventBroker {

  /** A listener object; ids are chosen by the listeners and need not be unique. */
  datatype Listener = Listener(address: nat, id: string)

  /** The job created to hand one event to one subscriber. */
  datatype EventJob = EventJob(listener: Listener, topic: string, key: string)

  type Topics = map<string, seq<Listener>>

  function Subscribers(topics: Topics, topic: string): seq<Listener> {
    if topic in topics then topics[topic] else []
  }

  /** Those not expired, in order. */
  function Living(list: seq<Listener>, alive: set<Listener>): seq<Listener> {
    if list == [] then [] else (if list[0] in alive then [list[0]] else []) + Living(list[1..], alive)
  }

  predicate Has(list: seq<Listener>, alive: set<Listener>, id: string) {
    exists i :: 0 <= i < |list| && list[i] in alive && list[i].id == id
  }

  function Registered(topics: Topics, alive: set<Listener>, l: Listener, topic: string): Topics {
    if Has(Subscribers(topics, topic), alive, l.id) then topics
    else topics[topic := Subscribers(topics, topic) + [l]]
  }

  function CleanedUp(topics: Topics, alive: set<Listener>): Topics {
    map t | t in topics :: Living(topics[t], alive)
  }

  function JobsFor(list: seq<Listener>, topic: string, key: string): seq<EventJob> {
    if list == [] then [] else [EventJob(list[0], topic, key)] + JobsFor(list[1..], topic, key)
  }

  /** One job for each living subscriber of the topic. */
  function Fired(topics: Topics, alive: set<Listener>, topic: string, key: string): seq<EventJob> {
    JobsFor(Living(Subscribers(topics, topic), alive), topic, key)
  }

  lemma {:induction false} LivingSplit(a: seq<Listener>, b: seq<Listener>, alive: set<Listener>)
    ensures Living(a + b, alive) == Living(a, alive) + Living(b, alive)
  {
    if a == [] {
      assert a + b == b;
    } else {
      assert (a + b)[1..] == a[1..] + b && (a + b)[0] == a[0];
      LivingSplit(a[1..], b, alive);
      var first := if a[0] in alive then [a[0]] else [];
      assert first + (Living(a[1..], alive) + Living(b, alive)) == first + Living(a[1..], alive) + Living(b, alive);
    }
  }

  lemma {:induction false} JobsSplit(a: seq<Listener>, b: seq<Listener>, topic: string, key: string)
    ensures JobsFor(a + b, topic, key) == JobsFor(a, topic, key) + JobsFor(b, topic, key)
  {
    if a == [] {
      assert a + b == b;
    } else {
      assert (a + b)[1..] == a[1..] + b;
      JobsSplit(a[1..], b, topic, key);
    }
  }

  lemma {:induction false} LivingMember(list: seq<Listener>, alive: set<Listener>, l: Listener)
    ensures l in Living(list, alive) <==> l in list && l in alive
  {
    if list == [] {
    } else {
      LivingMember(list[1..], alive, l);
    }
  }

  /** The expired subscribers are gone from every topic, and nobody else, and no topic is. */
  ghost predicate Trimmed(before: Topics, after: Topics, alive: set<Listener>) {
    && after.Keys == before.Keys
    && forall t, l :: t in before ==> (l in after[t] <==> l in before[t] && l in alive)
  }

  lemma CleanedUpMeans(topics: Topics, alive: set<Listener>)
    ensures Trimmed(topics, CleanedUp(topics, alive), alive)
  {
    forall t, l | t in topics ensures l in CleanedUp(topics, alive)[t] <==> l in topics[t] && l in alive {
      LivingMember(topics[t], alive, l);
    }
  }

  lemma NextLiving(list: seq<Listener>, i: nat, alive: set<Listener>, topic: string, key: string)
    requires i < |list|
    ensures JobsFor(Living(list[i..], alive), topic, key)
         == (if list[i] in alive then [EventJob(list[i], topic, key)] else [])
            + JobsFor(Living(list[i + 1..], alive), topic, key)
  {
    assert list[i..][0] == list[i] && list[i..][1..] == list[i + 1..];
    var rest := Living(list[i + 1..], alive);
    if list[i] in alive {
      assert ([list[i]] + rest)[1..] == rest;
    } else {
      assert [] + rest == rest;
    }
  }

  /** Whether a reference has expired is what `alive` says of its listener at the time of the call. */
  class JobBasedEventBroker {
    var eventListeners: map<string, seq<Listener>>

    constructor ()
      ensures eventListeners == map[]
    {
      eventListeners := map[];
    }

    method HasListener(id: string, topic: string, alive: set<Listener>) returns (found: bool)
      ensures found <==> Has(Subscribers(eventListeners, topic), alive, id)
    {
      if topic in eventListeners {
        var list := eventListeners[topic];
        for i := 0 to |list|
          invariant forall j :: 0 <= j < i ==> !(list[j] in alive && list[j].id == id)
        {
          if list[i] in alive && list[i].id == id {
            return true;
          }
        }
      }
      return false;
    }

    method RegisterListener(listener: Listener, topic: string, alive: set<Listener>)
      requires listener in alive
      modifies this
      ensures eventListeners == Registered(old(eventListeners), alive, listener, topic)
      ensures (exists l :: l in Subscribers(old(eventListeners), topic) && l in alive && l.id == listener.id) ==>
                eventListeners == old(eventListeners)
      ensures !(exists l :: l in Subscribers(old(eventListeners), topic) && l in alive && l.id == listener.id) ==>
                eventListeners == old(eventListeners)[topic := Subscribers(old(eventListeners), topic) + [listener]]
    {
      var known := HasListener(listener.id, topic, alive);
      if !known {
        if topic !in eventListeners {
          eventListeners := eventListeners[topic := []];
        }
        eventListeners := eventListeners[topic := eventListeners[topic] + [listener]];
      }
    }

    method FireEvent(topic: string, key: string, alive: set<Listener>) returns (kicked: seq<EventJob>)
      ensures kicked == Fired(eventListeners, alive, topic, key)
    {
      assert JobsFor(Living([], alive), topic, key) == [];
      hide Living, JobsFor;
      kicked := [];
      if topic in eventListeners {
        var list := eventListeners[topic];
        assert list[0..] == list;
        for i := 0 to |list|
          invariant kicked + JobsFor(Living(list[i..], alive), topic, key)
                 == JobsFor(Living(list, alive), topic, key)
        {
          NextLiving(list, i, alive, topic, key);
          if list[i] in alive {
            kicked := kicked + [EventJob(list[i], topic, key)];
          }
        }
        assert list[|list|..] == [];
      }
    }

    method CleanUpSubscribers(alive: set<Listener>)
      modifies this
      ensures eventListeners == CleanedUp(old(eventListeners), alive)
      ensures Trimmed(old(eventListeners), eventListeners, alive)
    {
      hide Living;
      var rest := eventListeners.Keys;
      while rest != {}
        invariant rest <= old(eventListeners).Keys == eventListeners.Keys
        invariant forall t :: t in eventListeners ==>
          eventListeners[t] == if t in rest then old(eventListeners)[t] else Living(old(eventListeners)[t], alive)
        decreases |rest|
      {
        var topic :| topic in rest;
        var kept := LivingOnes(eventListeners[topic], alive);
        eventListeners := eventListeners[topic := kept];
        rest := rest - {topic};
      }
      assert eventListeners == CleanedUp(old(eventListeners), alive);
      hide CleanedUp, Trimmed;
      CleanedUpMeans(old(eventListeners), alive);
    }
  }

  method LivingOnes(list: seq<Listener>, alive: set<Listener>) returns (kept: seq<Listener>)
    ensures kept == Living(list, alive)
  {
    kept := [];
    for i := 0 to |list|
      invariant kept + Living(list[i..], alive) == Living(list, alive)
    {
      assert list[i..][0] == list[i] && list[i..][1..] == list[i + 1..];
      if list[i] in alive {
        kept := kept + [list[i]];
      }
    }
  }
}
