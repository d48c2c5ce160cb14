/**
 * BulkNodeClient: an ingest client on a node client. Its bulk processor's listener keeps the
 * State counters and a count of bulk requests in flight; a failed bulk request, or an exception
 * while adding an action, latches the client closed and records the cause, after which every
 * ingest call throws. A response in which some items failed leaves the client open.
 *
 * The client is modelled from the point newClient(client) returns: the listener is installed
 * and the cluster has been waited for. What the bulk processor and the cluster client are asked
 * to do is recorded in two logs.
 */
module BulkNode {
  import opened Common
  import opened Bulk
  import opened ClientState

  class BulkNodeClient {
    const state: State
    var closed: bool
    var throwable: Option<Throwable>
    var concurrentRequests: int
    var processorCalls: seq<ProcessorCall>
    var clientCalls: seq<ClientCall>

    /**
     * newClient: a fresh State; the client is open exactly when waiting for the cluster to turn
     * yellow did not fail.
     */
    constructor (clusterReady: bool)
      ensures fresh(state) && state.indexNames == {} && state.counters == NoCounters
      ensures closed == !clusterReady && throwable == None && concurrentRequests == 0
      ensures processorCalls == [] && clientCalls == []
    {
      state := new State();
      closed := !clusterReady;
      throwable := None;
      concurrentRequests := 0;
      processorCalls := [];
      clientCalls := [];
    }

    /** The listener's beforeBulk: one more request in flight and its actions and bytes counted. */
    method BeforeBulk(request: BulkRequest)
      modifies this, state
      ensures concurrentRequests == old(concurrentRequests) + 1
      ensures state.counters == Submitted(old(state.counters), request)
      ensures state.indexNames == old(state.indexNames)
      ensures closed == old(closed) && throwable == old(throwable)
      ensures processorCalls == old(processorCalls) && clientCalls == old(clientCalls)
    {
      concurrentRequests := concurrentRequests + 1;
      var n := request.numberOfActions;
      state.counters := state.counters.(submitted := state.counters.submitted + n);
      state.counters := state.counters.(currentIngestNumDocs := state.counters.currentIngestNumDocs + n);
      state.counters := state.counters.(totalIngestSizeInBytes := state.counters.totalIngestSizeInBytes + request.estimatedSizeInBytes);
    }

    /**
     * The listener's afterBulk for a response: one request less in flight, the counters
     * reconciled item by item. Failed items are only counted; the client stays open.
     */
    method AfterBulk(response: BulkResponse)
      modifies this, state
      ensures concurrentRequests == old(concurrentRequests) - 1
      ensures state.counters == Reconciled(old(state.counters), response)
      ensures state.indexNames == old(state.indexNames)
      ensures closed == old(closed) && throwable == old(throwable)
      ensures processorCalls == old(processorCalls) && clientCalls == old(clientCalls)
    {
      concurrentRequests := concurrentRequests - 1;
      var items := response.items;
      var m := |items|;
      state.counters := state.counters.(succeeded := state.counters.succeeded + m);
      state.counters := state.counters.(failed := state.counters.failed + 0);
      state.counters := state.counters.(totalIngest := Inc(state.counters.totalIngest, response.tookInMillis));
      var n := 0;
      var i := 0;
      while i < m
        modifies state
        invariant 0 <= i <= m && n == FailedCount(items[..i])
        invariant state.indexNames == old(state.indexNames)
        invariant state.counters == old(state.counters).(succeeded := old(state.counters).succeeded + m - n,
                                                         failed := old(state.counters).failed + n,
                                                         totalIngest := Inc(old(state.counters).totalIngest, response.tookInMillis))
      {
        FailedCountStep(items, i);
        if items[i].isFailed {
          n := n + 1;
          state.counters := state.counters.(succeeded := state.counters.succeeded - 1);
          state.counters := state.counters.(failed := state.counters.failed + 1);
        }
        i := i + 1;
      }
      assert items[..m] == items;
      if n == 0 {
        state.counters := state.counters.(currentIngestNumDocs := state.counters.currentIngestNumDocs - m);
      }
    }

    /** The listener's afterBulk for a failed request: the cause is kept and the client latched closed. */
    method AfterBulkFailure(failure: Throwable)
      modifies this
      ensures concurrentRequests == old(concurrentRequests) - 1
      ensures throwable == Some(failure) && closed
      ensures processorCalls == old(processorCalls) && clientCalls == old(clientCalls)
    {
      concurrentRequests := concurrentRequests - 1;
      throwable := Some(failure);
      closed := true;
    }

    /**
     * The body shared by index, bulkIndex, delete and bulkDelete. A closed client throws and
     * changes nothing. Otherwise the action is added; `failure` is what add throws, if anything,
     * which is caught, kept as the cause and latches the client closed. The in-flight gauge is
     * raised around the add and restored in the finally block.
     */
    method Submit(request: ActionRequest, failure: Option<Throwable>) returns (outcome: Outcome)
      modifies this, state
      ensures old(closed) ==> outcome == Threw(IllegalState(ClientIsClosed)) && processorCalls == old(processorCalls)
      ensures old(closed) ==> closed && throwable == old(throwable)
      ensures !old(closed) ==> outcome == Returned && processorCalls == old(processorCalls) + [Add(request)]
      ensures !old(closed) ==> closed == failure.Some? && throwable == if failure.Some? then failure else old(throwable)
      ensures state.counters == old(state.counters) && state.indexNames == old(state.indexNames)
      ensures concurrentRequests == old(concurrentRequests) && clientCalls == old(clientCalls)
    {
      if closed {
        return Threw(IllegalState(ClientIsClosed));
      }
      state.counters := state.counters.(currentIngest := state.counters.currentIngest + 1);
      processorCalls := processorCalls + [Add(request)];
      if failure.Some? {
        throwable := failure;
        closed := true;
      }
      state.counters := state.counters.(currentIngest := state.counters.currentIngest - 1);
      outcome := Returned;
    }

    /** index(index, type, id, source): adds an index request that does not insist on creating. */
    method Index(index: string, docType: string, id: string, source: string, failure: Option<Throwable>)
      returns (outcome: Outcome)
      modifies this, state
      ensures old(closed) ==> outcome == Threw(IllegalState(ClientIsClosed)) && processorCalls == old(processorCalls)
      ensures old(closed) ==> closed && throwable == old(throwable)
      ensures !old(closed) ==> outcome == Returned
      ensures !old(closed) ==> processorCalls == old(processorCalls) + [Add(IndexRequest(index, docType, id, source, false))]
      ensures !old(closed) ==> closed == failure.Some? && throwable == if failure.Some? then failure else old(throwable)
      ensures state.counters == old(state.counters) && state.indexNames == old(state.indexNames)
      ensures concurrentRequests == old(concurrentRequests) && clientCalls == old(clientCalls)
    {
      outcome := Submit(IndexRequest(index, docType, id, source, false), failure);
    }

    method BulkIndex(request: ActionRequest, failure: Option<Throwable>) returns (outcome: Outcome)
      requires request.IndexRequest?
      modifies this, state
      ensures old(closed) ==> outcome == Threw(IllegalState(ClientIsClosed)) && processorCalls == old(processorCalls)
      ensures old(closed) ==> closed && throwable == old(throwable)
      ensures !old(closed) ==> outcome == Returned && processorCalls == old(processorCalls) + [Add(request)]
      ensures !old(closed) ==> closed == failure.Some? && throwable == if failure.Some? then failure else old(throwable)
      ensures state.counters == old(state.counters) && state.indexNames == old(state.indexNames)
      ensures concurrentRequests == old(concurrentRequests) && clientCalls == old(clientCalls)
    {
      outcome := Submit(request, failure);
    }

    method Delete(index: string, docType: string, id: string, failure: Option<Throwable>) returns (outcome: Outcome)
      modifies this, state
      ensures old(closed) ==> outcome == Threw(IllegalState(ClientIsClosed)) && processorCalls == old(processorCalls)
      ensures old(closed) ==> closed && throwable == old(throwable)
      ensures !old(closed) ==> outcome == Returned
      ensures !old(closed) ==> processorCalls == old(processorCalls) + [Add(DeleteRequest(index, docType, id))]
      ensures !old(closed) ==> closed == failure.Some? && throwable == if failure.Some? then failure else old(throwable)
      ensures state.counters == old(state.counters) && state.indexNames == old(state.indexNames)
      ensures concurrentRequests == old(concurrentRequests) && clientCalls == old(clientCalls)
    {
      outcome := Submit(DeleteRequest(index, docType, id), failure);
    }

    method BulkDelete(request: ActionRequest, failure: Option<Throwable>) returns (outcome: Outcome)
      requires request.DeleteRequest?
      modifies this, state
      ensures old(closed) ==> outcome == Threw(IllegalState(ClientIsClosed)) && processorCalls == old(processorCalls)
      ensures old(closed) ==> closed && throwable == old(throwable)
      ensures !old(closed) ==> outcome == Returned && processorCalls == old(processorCalls) + [Add(request)]
      ensures !old(closed) ==> closed == failure.Some? && throwable == if failure.Some? then failure else old(throwable)
      ensures state.counters == old(state.counters) && state.indexNames == old(state.indexNames)
      ensures concurrentRequests == old(concurrentRequests) && clientCalls == old(clientCalls)
    {
      outcome := Submit(request, failure);
    }

    /** flushIngest: flushes the bulk processor, unless the client is closed. */
    method FlushIngest() returns (outcome: Outcome)
      modifies this
      ensures outcome == if old(closed) then Threw(IllegalState(ClientIsClosed)) else Returned
      ensures processorCalls == if old(closed) then old(processorCalls) else old(processorCalls) + [Flush]
      ensures closed == old(closed) && throwable == old(throwable) && concurrentRequests == old(concurrentRequests)
      ensures clientCalls == old(clientCalls)
    {
      if closed {
        return Threw(IllegalState(ClientIsClosed));
      }
      processorCalls := processorCalls + [Flush];
      outcome := Returned;
    }

    /** waitForResponses: waits for outstanding requests up to the given time, unless closed. */
    method WaitForResponses(maxWaitMillis: int) returns (outcome: Outcome)
      modifies this
      ensures outcome == if old(closed) then Threw(IllegalState(ClientIsClosed)) else Returned
      ensures processorCalls == if old(closed) then old(processorCalls) else old(processorCalls) + [WaitFor(maxWaitMillis)]
      ensures closed == old(closed) && throwable == old(throwable) && concurrentRequests == old(concurrentRequests)
      ensures clientCalls == old(clientCalls)
    {
      if closed {
        return Threw(IllegalState(ClientIsClosed));
      }
      processorCalls := processorCalls + [WaitFor(maxWaitMillis)];
      outcome := Returned;
    }

    /** startBulk: an index not yet in bulk mode enters it and has its refresh disabled. */
    method StartBulk(index: string)
      modifies this, state
      ensures state.indexNames == Apply(old(state.indexNames), Start(index))
      ensures clientCalls == if index in old(state.indexNames) then old(clientCalls)
                             else old(clientCalls) + [DisableRefresh(index)]
      ensures state.counters == old(state.counters)
      ensures closed == old(closed) && throwable == old(throwable) && concurrentRequests == old(concurrentRequests)
      ensures processorCalls == old(processorCalls)
    {
      if !state.IsBulk(index) {
        state.StartBulk(index);
        clientCalls := clientCalls + [DisableRefresh(index)];
      }
    }

    /** stopBulk: an index in bulk mode leaves it and has its refresh enabled again. */
    method StopBulk(index: string)
      modifies this, state
      ensures state.indexNames == Apply(old(state.indexNames), Stop(index))
      ensures clientCalls == if index in old(state.indexNames) then old(clientCalls) + [EnableRefresh(index)]
                             else old(clientCalls)
      ensures state.counters == old(state.counters)
      ensures closed == old(closed) && throwable == old(throwable) && concurrentRequests == old(concurrentRequests)
      ensures processorCalls == old(processorCalls)
    {
      if state.IsBulk(index) {
        state.StopBulk(index);
        clientCalls := clientCalls + [EnableRefresh(index)];
      }
    }

    /**
     * shutdown: closes the bulk processor, takes every index out of bulk mode, walking a copy of
     * the set in some order, and closes the cluster client. The latch is left as it was.
     */
    method Shutdown() returns (ghost order: seq<string>)
      modifies this, state
      ensures Enumerates(order, old(state.indexNames)) && state.indexNames == {}
      ensures clientCalls == old(clientCalls) + Each(order, i => EnableRefresh(i)) + [CloseClient]
      ensures processorCalls == old(processorCalls) + [Close]
      ensures state.counters == old(state.counters)
      ensures closed == old(closed) && throwable == old(throwable) && concurrentRequests == old(concurrentRequests)
    {
      processorCalls := processorCalls + [Close];
      order := StopAll();
      clientCalls := clientCalls + [CloseClient];
    }

    /** One step of that loop: an index still in bulk mode leaves it, and its call is logged. */
    method StopNext(index: string, ghost log: seq<ClientCall>, ghost order: seq<string>)
      requires index in state.indexNames && clientCalls == log + Each(order, i => EnableRefresh(i))
      modifies this, state
      ensures state.indexNames == old(state.indexNames) - {index}
      ensures clientCalls == log + Each(order + [index], i => EnableRefresh(i))
      ensures state.counters == old(state.counters) && processorCalls == old(processorCalls)
      ensures closed == old(closed) && throwable == old(throwable) && concurrentRequests == old(concurrentRequests)
    {
      StopBulk(index);
      LogStep(log, order, i => EnableRefresh(i), index);
    }

    /** The loop of shutdown: stopBulk for each index of a copy of the bulk-mode set. */
    method StopAll() returns (ghost order: seq<string>)
      modifies this, state
      ensures Enumerates(order, old(state.indexNames)) && state.indexNames == {}
      ensures clientCalls == old(clientCalls) + Each(order, i => EnableRefresh(i))
      ensures state.counters == old(state.counters) && processorCalls == old(processorCalls)
      ensures closed == old(closed) && throwable == old(throwable) && concurrentRequests == old(concurrentRequests)
    {
      order := [];
      ghost var removed: set<string> := {};
      var pending := state.Indices();
      while pending != {}
        invariant pending == old(state.indexNames) - removed && state.indexNames == pending
        invariant Enumerates(order, removed) && removed <= old(state.indexNames)
        invariant clientCalls == old(clientCalls) + Each(order, i => EnableRefresh(i))
        invariant state.counters == old(state.counters) && processorCalls == old(processorCalls)
        invariant closed == old(closed) && throwable == old(throwable) && concurrentRequests == old(concurrentRequests)
        decreases pending
      {
        var index :| index in pending;
        StopNext(index, old(clientCalls), order);
        EnumeratesStep(order, removed, index);
        order := order + [index];
        removed := removed + {index};
        pending := pending - {index};
      }
      assert removed == old(state.indexNames);
    }

    /** hasThrowable: a failure cause has been recorded. */
    predicate HasThrowable()
      reads this
    {
      throwable.Some?
    }
  }

  /** Shutting down twice: the second shutdown finds no index in bulk mode and restores nothing. */
  method ShutdownTwice(c: BulkNodeClient) returns (ghost order: seq<string>)
    modifies c, c.state
    ensures Enumerates(order, old(c.state.indexNames)) && c.state.indexNames == {}
    ensures c.clientCalls == old(c.clientCalls) + Each(order, i => EnableRefresh(i)) + [CloseClient, CloseClient]
    ensures c.processorCalls == old(c.processorCalls) + [Close, Close]
  {
    order := c.Shutdown();
    ghost var again := c.Shutdown();
    EnumeratesNothing(again);
  }
}
