/**
 * NodeClient: the other ingest client on a node client. Its listener keeps the same State
 * counters and a count of outstanding bulk requests, but it is stricter than BulkNodeClient:
 * a response in which any item failed latches the client closed (without recording a cause).
 * Its index and delete calls take a ready request; the overloads that take the document's
 * coordinates build the request and delegate.
 *
 * As for BulkNodeClient, the client is modelled from the point newClient(client) returns, and
 * the calls on the bulk processor and the cluster client are recorded in two logs.
 */
module Node {
  import opened Common
  import opened Bulk
  import opened ClientState

  /** The time flush waits for outstanding requests: sixty seconds. */
  const FlushWaitMillis := 60_000

  class NodeClient {
    const state: State
    var closed: bool
    var throwable: Option<Throwable>
    var outstandingBulkRequests: int
    var processorCalls: seq<ProcessorCall>
    var clientCalls: seq<ClientCall>

    /** newClient: a fresh State; open exactly when waiting for the cluster did not fail. */
    constructor (clusterReady: bool)
      ensures fresh(state) && state.indexNames == {} && state.counters == NoCounters
      ensures closed == !clusterReady && throwable == None && outstandingBulkRequests == 0
      ensures processorCalls == [] && clientCalls == []
    {
      state := new State();
      closed := !clusterReady;
      throwable := None;
      outstandingBulkRequests := 0;
      processorCalls := [];
      clientCalls := [];
    }

    /** The listener's beforeBulk: one more outstanding request, its actions and bytes counted. */
    method BeforeBulk(request: BulkRequest)
      modifies this, state
      ensures outstandingBulkRequests == old(outstandingBulkRequests) + 1
      ensures state.counters == Submitted(old(state.counters), request)
      ensures state.indexNames == old(state.indexNames)
      ensures closed == old(closed) && throwable == old(throwable)
      ensures processorCalls == old(processorCalls) && clientCalls == old(clientCalls)
    {
      outstandingBulkRequests := outstandingBulkRequests + 1;
      var n := request.numberOfActions;
      state.counters := state.counters.(submitted := state.counters.submitted + n);
      state.counters := state.counters.(currentIngestNumDocs := state.counters.currentIngestNumDocs + n);
      state.counters := state.counters.(totalIngestSizeInBytes := state.counters.totalIngestSizeInBytes + request.estimatedSizeInBytes);
    }

    /**
     * The listener's afterBulk for a response: one outstanding request less and the counters
     * reconciled. A response with failures closes the client, and only then are its items walked
     * to move the failed ones from the successes to the failures.
     */
    method AfterBulk(response: BulkResponse)
      modifies this, state
      ensures outstandingBulkRequests == old(outstandingBulkRequests) - 1
      ensures state.counters == Reconciled(old(state.counters), response)
      ensures closed == (old(closed) || HasFailures(response)) && throwable == old(throwable)
      ensures state.indexNames == old(state.indexNames)
      ensures processorCalls == old(processorCalls) && clientCalls == old(clientCalls)
    {
      outstandingBulkRequests := outstandingBulkRequests - 1;
      var items := response.items;
      var m := |items|;
      state.counters := state.counters.(succeeded := state.counters.succeeded + m);
      state.counters := state.counters.(failed := state.counters.failed + 0);
      state.counters := state.counters.(totalIngest := Inc(state.counters.totalIngest, response.tookInMillis));
      FailedCountPositive(items);
      if HasFailures(response) {
        closed := true;
        var i := 0;
        while i < m
          modifies state
          invariant 0 <= i <= m
          invariant state.indexNames == old(state.indexNames)
          invariant state.counters == old(state.counters).(succeeded := old(state.counters).succeeded + m - FailedCount(items[..i]),
                                                           failed := old(state.counters).failed + FailedCount(items[..i]),
                                                           totalIngest := Inc(old(state.counters).totalIngest, response.tookInMillis))
        {
          FailedCountStep(items, i);
          if items[i].isFailed {
            state.counters := state.counters.(succeeded := state.counters.succeeded - 1);
            state.counters := state.counters.(failed := state.counters.failed + 1);
          }
          i := i + 1;
        }
        assert items[..m] == items;
      } else {
        state.counters := state.counters.(currentIngestNumDocs := state.counters.currentIngestNumDocs - m);
      }
    }

    /** The listener's afterBulk for a failed request: the cause is kept and the client latched closed. */
    method AfterBulkFailure(failure: Throwable)
      modifies this
      ensures outstandingBulkRequests == old(outstandingBulkRequests) - 1
      ensures throwable == Some(failure) && closed
      ensures processorCalls == old(processorCalls) && clientCalls == old(clientCalls)
    {
      outstandingBulkRequests := outstandingBulkRequests - 1;
      throwable := Some(failure);
      closed := true;
    }

    /**
     * The body shared by index(IndexRequest) and delete(DeleteRequest): throws when closed,
     * otherwise adds the action; what add throws (`failure`) is kept and latches the client
     * closed. The current-ingest gauge is raised around the add and lowered in the finally block.
     */
    method Submit(request: ActionRequest, failure: Option<Throwable>) returns (outcome: Outcome)
      modifies this, state
      ensures old(closed) ==> outcome == Threw(IllegalState(ClientIsClosed)) && processorCalls == old(processorCalls)
      ensures old(closed) ==> closed && throwable == old(throwable)
      ensures !old(closed) ==> outcome == Returned && processorCalls == old(processorCalls) + [Add(request)]
      ensures !old(closed) ==> closed == failure.Some? && throwable == if failure.Some? then failure else old(throwable)
      ensures state.counters == old(state.counters) && state.indexNames == old(state.indexNames)
      ensures outstandingBulkRequests == old(outstandingBulkRequests) && clientCalls == old(clientCalls)
    {
      if closed {
        return Threw(IllegalState(ClientIsClosed));
      }
      state.counters := state.counters.(currentIngest := state.counters.currentIngest + 1);
      processorCalls := processorCalls + [Add(request)];
      if failure.Some? {
        throwable := failure;
        closed := true;
      }
      state.counters := state.counters.(currentIngest := state.counters.currentIngest - 1);
      outcome := Returned;
    }

    /** index(IndexRequest). */
    method Index(request: ActionRequest, failure: Option<Throwable>) returns (outcome: Outcome)
      requires request.IndexRequest?
      modifies this, state
      ensures old(closed) ==> outcome == Threw(IllegalState(ClientIsClosed)) && processorCalls == old(processorCalls)
      ensures old(closed) ==> closed && throwable == old(throwable)
      ensures !old(closed) ==> outcome == Returned && processorCalls == old(processorCalls) + [Add(request)]
      ensures !old(closed) ==> closed == failure.Some? && throwable == if failure.Some? then failure else old(throwable)
      ensures state.counters == old(state.counters) && state.indexNames == old(state.indexNames)
      ensures outstandingBulkRequests == old(outstandingBulkRequests) && clientCalls == old(clientCalls)
    {
      outcome := Submit(request, failure);
    }

    /** index(index, type, id, source): builds an index request that does not insist on creating. */
    method IndexSource(index: string, docType: string, id: string, source: string, failure: Option<Throwable>)
      returns (outcome: Outcome)
      modifies this, state
      ensures old(closed) ==> outcome == Threw(IllegalState(ClientIsClosed)) && processorCalls == old(processorCalls)
      ensures old(closed) ==> closed && throwable == old(throwable)
      ensures !old(closed) ==> outcome == Returned
      ensures !old(closed) ==> processorCalls == old(processorCalls) + [Add(IndexRequest(index, docType, id, source, false))]
      ensures !old(closed) ==> closed == failure.Some? && throwable == if failure.Some? then failure else old(throwable)
      ensures state.counters == old(state.counters) && state.indexNames == old(state.indexNames)
      ensures outstandingBulkRequests == old(outstandingBulkRequests) && clientCalls == old(clientCalls)
    {
      outcome := Index(IndexRequest(index, docType, id, source, false), failure);
    }

    /** delete(DeleteRequest). */
    method Delete(request: ActionRequest, failure: Option<Throwable>) returns (outcome: Outcome)
      requires request.DeleteRequest?
      modifies this, state
      ensures old(closed) ==> outcome == Threw(IllegalState(ClientIsClosed)) && processorCalls == old(processorCalls)
      ensures old(closed) ==> closed && throwable == old(throwable)
      ensures !old(closed) ==> outcome == Returned && processorCalls == old(processorCalls) + [Add(request)]
      ensures !old(closed) ==> closed == failure.Some? && throwable == if failure.Some? then failure else old(throwable)
      ensures state.counters == old(state.counters) && state.indexNames == old(state.indexNames)
      ensures outstandingBulkRequests == old(outstandingBulkRequests) && clientCalls == old(clientCalls)
    {
      outcome := Submit(request, failure);
    }

    /** delete(index, type, id): builds the delete request and delegates. */
    method DeleteById(index: string, docType: string, id: string, failure: Option<Throwable>) returns (outcome: Outcome)
      modifies this, state
      ensures old(closed) ==> outcome == Threw(IllegalState(ClientIsClosed)) && processorCalls == old(processorCalls)
      ensures old(closed) ==> closed && throwable == old(throwable)
      ensures !old(closed) ==> outcome == Returned
      ensures !old(closed) ==> processorCalls == old(processorCalls) + [Add(DeleteRequest(index, docType, id))]
      ensures !old(closed) ==> closed == failure.Some? && throwable == if failure.Some? then failure else old(throwable)
      ensures state.counters == old(state.counters) && state.indexNames == old(state.indexNames)
      ensures outstandingBulkRequests == old(outstandingBulkRequests) && clientCalls == old(clientCalls)
    {
      outcome := Delete(DeleteRequest(index, docType, id), failure);
    }

    /** flush: unless closed, flushes the bulk processor and waits up to sixty seconds for it. */
    method Flush() returns (outcome: Outcome)
      modifies this
      ensures outcome == if old(closed) then Threw(IllegalState(ClientIsClosed)) else Returned
      ensures processorCalls == if old(closed) then old(processorCalls)
                                else old(processorCalls) + [ProcessorCall.Flush, WaitFor(FlushWaitMillis)]
      ensures closed == old(closed) && throwable == old(throwable)
      ensures outstandingBulkRequests == old(outstandingBulkRequests) && clientCalls == old(clientCalls)
    {
      if closed {
        return Threw(IllegalState(ClientIsClosed));
      }
      processorCalls := processorCalls + [ProcessorCall.Flush, WaitFor(FlushWaitMillis)];
      outcome := Returned;
    }

    /** startBulk: an index not yet in bulk mode enters it, and the cluster is told so. */
    method StartBulk(index: string)
      modifies this, state
      ensures state.indexNames == Apply(old(state.indexNames), Start(index))
      ensures clientCalls == if index in old(state.indexNames) then old(clientCalls)
                             else old(clientCalls) + [StartBulkMode(index)]
      ensures state.counters == old(state.counters)
      ensures closed == old(closed) && throwable == old(throwable)
      ensures outstandingBulkRequests == old(outstandingBulkRequests) && processorCalls == old(processorCalls)
    {
      if !state.IsBulk(index) {
        state.StartBulk(index);
        clientCalls := clientCalls + [StartBulkMode(index)];
      }
    }

    /** stopBulk: an index in bulk mode leaves it, and the cluster is told so. */
    method StopBulk(index: string)
      modifies this, state
      ensures state.indexNames == Apply(old(state.indexNames), Stop(index))
      ensures clientCalls == if index in old(state.indexNames) then old(clientCalls) + [StopBulkMode(index)]
                             else old(clientCalls)
      ensures state.counters == old(state.counters)
      ensures closed == old(closed) && throwable == old(throwable)
      ensures outstandingBulkRequests == old(outstandingBulkRequests) && processorCalls == old(processorCalls)
    {
      if state.IsBulk(index) {
        state.StopBulk(index);
        clientCalls := clientCalls + [StopBulkMode(index)];
      }
    }

    /**
     * shutdown: closes the bulk processor, takes every index out of bulk mode over a copy of the
     * set, and closes the cluster client. The latch is left as it was.
     */
    method Shutdown() returns (ghost order: seq<string>)
      modifies this, state
      ensures Enumerates(order, old(state.indexNames)) && state.indexNames == {}
      ensures clientCalls == old(clientCalls) + Each(order, i => StopBulkMode(i)) + [CloseClient]
      ensures processorCalls == old(processorCalls) + [Close]
      ensures state.counters == old(state.counters)
      ensures closed == old(closed) && throwable == old(throwable)
      ensures outstandingBulkRequests == old(outstandingBulkRequests)
    {
      processorCalls := processorCalls + [Close];
      order := StopAll();
      clientCalls := clientCalls + [CloseClient];
    }

    /** One step of that loop: an index still in bulk mode leaves it, and its call is logged. */
    method StopNext(index: string, ghost log: seq<ClientCall>, ghost order: seq<string>)
      requires index in state.indexNames && clientCalls == log + Each(order, i => StopBulkMode(i))
      modifies this, state
      ensures state.indexNames == old(state.indexNames) - {index}
      ensures clientCalls == log + Each(order + [index], i => StopBulkMode(i))
      ensures state.counters == old(state.counters) && processorCalls == old(processorCalls)
      ensures closed == old(closed) && throwable == old(throwable) && outstandingBulkRequests == old(outstandingBulkRequests)
    {
      StopBulk(index);
      LogStep(log, order, i => StopBulkMode(i), index);
    }

    /** The loop of shutdown: stopBulk for each index of a copy of the bulk-mode set. */
    method StopAll() returns (ghost order: seq<string>)
      modifies this, state
      ensures Enumerates(order, old(state.indexNames)) && state.indexNames == {}
      ensures clientCalls == old(clientCalls) + Each(order, i => StopBulkMode(i))
      ensures state.counters == old(state.counters) && processorCalls == old(processorCalls)
      ensures closed == old(closed) && throwable == old(throwable) && outstandingBulkRequests == old(outstandingBulkRequests)
    {
      order := [];
      ghost var removed: set<string> := {};
      var pending := state.Indices();
      while pending != {}
        invariant pending == old(state.indexNames) - removed && state.indexNames == pending
        invariant Enumerates(order, removed) && removed <= old(state.indexNames)
        invariant clientCalls == old(clientCalls) + Each(order, i => StopBulkMode(i))
        invariant state.counters == old(state.counters) && processorCalls == old(processorCalls)
        invariant closed == old(closed) && throwable == old(throwable) && outstandingBulkRequests == old(outstandingBulkRequests)
        decreases pending
      {
        var index :| index in pending;
        StopNext(index, old(clientCalls), order);
        EnumeratesStep(order, removed, index);
        order := order + [index];
        removed := removed + {index};
        pending := pending - {index};
      }
      assert removed == old(state.indexNames);
    }

    /** hasThrowable: a failure cause has been recorded. */
    predicate HasThrowable()
      reads this
    {
      throwable.Some?
    }
  }
}
