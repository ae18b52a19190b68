/** The table of pending requests as the object that RemoteServiceResponseConsumer is. */
module ResponseConsumer {
  import opened Wrappers
  import opened PendingRequests

  /** What was tried on a std::promise; only the first attempt takes effect. */
  class ResponsePromise {
    var attempts: seq<Outcome>

    constructor ()
      ensures attempts == []
    {
      attempts := [];
    }

    method Set(o: Outcome)
      modifies this
      ensures attempts == old(attempts) + [o]
    {
      attempts := attempts + [o];
    }
  }

  class ServiceRequest {
    const transaction: Transaction
    var currentlyProcessed: bool

    constructor (transaction: Transaction)
      ensures this.transaction == transaction && !currentlyProcessed
    {
      this.transaction := transaction;
      currentlyProcessed := false;
    }

    method MarkAsCurrentlyProcessed(mark: bool)
      modifies this
      ensures currentlyProcessed == mark
    {
      currentlyProcessed := mark;
    }
  }

  datatype PendingRequest = PendingRequest(request: ServiceRequest, promise: ResponsePromise, endpoint: Endpoint)

  class RemoteServiceResponseConsumer {
    var pendingRequests: map<Transaction, PendingRequest>

    ghost function Requests(): set<ServiceRequest>
      reads this
    {
      set t | t in pendingRequests :: pendingRequests[t].request
    }

    ghost function Promises(): set<ResponsePromise>
      reads this
    {
      set t | t in pendingRequests :: pendingRequests[t].promise
    }

    /** Every entry stands under the id of its request, which is marked, and no promise is there twice. */
    ghost predicate Valid()
      reads this, Requests()
    {
      && (forall t :: t in pendingRequests ==>
            pendingRequests[t].request.transaction == t && pendingRequests[t].request.currentlyProcessed)
      && (forall t, u :: t in pendingRequests && u in pendingRequests && t != u ==>
            pendingRequests[t].promise != pendingRequests[u].promise)
    }

    constructor ()
      ensures Valid() && pendingRequests == map[]
    {
      pendingRequests := map[];
    }

    method AddResponsePromise(request: ServiceRequest, endpoint: Endpoint, promise: ResponsePromise)
      requires Valid() && request.currentlyProcessed && request.transaction !in pendingRequests
      requires promise !in Promises()
      modifies this
      ensures Valid()
      ensures pendingRequests
           == old(pendingRequests)[request.transaction := PendingRequest(request, promise, endpoint)]
    {
      pendingRequests := pendingRequests[request.transaction := PendingRequest(request, promise, endpoint)];
    }

    method RemoveResponsePromise(t: Transaction) returns (removed: Option<ResponsePromise>)
      requires Valid()
      modifies this
      ensures Valid() && pendingRequests == old(pendingRequests) - {t}
      ensures removed == if t in old(pendingRequests) then Some(old(pendingRequests)[t].promise) else None
    {
      removed := None;
      if t in pendingRequests {
        removed := Some(pendingRequests[t].promise);
        pendingRequests := pendingRequests - {t};
      }
    }

    /** None stands for a message that cannot be converted to a response. */
    method ProcessReceivedMessage(response: Option<(Transaction, Content)>)
      requires Valid()
      modifies this, Requests(), Promises()
      ensures Valid()
      ensures response.None? || response.value.0 !in old(pendingRequests) ==>
                pendingRequests == old(pendingRequests)
                && forall p :: p in old(Promises()) ==> p.attempts == old(p.attempts)
      ensures response.Some? && response.value.0 in old(pendingRequests) ==>
                var (t, content) := response.value; var info := old(pendingRequests)[t];
                && pendingRequests == old(pendingRequests) - {t}
                && info.promise.attempts == old(info.promise.attempts) + [Responded(content)]
                && !info.request.currentlyProcessed
                && forall p :: p in old(Promises()) && p != info.promise ==> p.attempts == old(p.attempts)
    {
      if response.None? {
        return;
      }
      var (t, content) := response.value;
      if t !in pendingRequests {
        return;
      }
      var info := pendingRequests[t];
      assert info.request in Requests() && info.promise in Promises();
      info.request.MarkAsCurrentlyProcessed(false);
      info.promise.Set(Responded(content));
      pendingRequests := pendingRequests - {t};
    }
  }

  /** The handler registered for a request sent to `endpoint`, run when the connection to `closed` ends. */
  method OnConnectionClosed(consumer: RemoteServiceResponseConsumer, t: Transaction, endpoint: Endpoint,
                            closed: Endpoint)
    requires consumer.Valid()
    modifies consumer, consumer.Promises()
    ensures consumer.Valid()
    ensures consumer.pendingRequests == if endpoint == closed then old(consumer.pendingRequests) - {t}
                                        else old(consumer.pendingRequests)
    ensures forall u :: u in old(consumer.pendingRequests) ==>
              var p := old(consumer.pendingRequests)[u].promise;
              p.attempts == old(p.attempts) + if u == t && endpoint == closed then [Disconnected(closed)] else []
  {
    if endpoint == closed {
      var maybePromise := consumer.RemoveResponsePromise(t);
      if maybePromise.Some? {
        assert maybePromise.value in old(consumer.Promises());
        maybePromise.value.Set(Disconnected(closed));
      }
    }
  }
}
