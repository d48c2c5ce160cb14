/**
 * HttpBulkNodeClient: the ingest client over HTTP. Its counters live in an IngestMetric that
 * the caller may leave out (null); every use of it in the listener, in index, bulkIndex, delete
 * and bulkDelete, and in the bulk-mode calls is guarded, so without a metric nothing is counted
 * and bulk mode is never entered, while the closed latch works as in the node clients. Entering
 * bulk mode sets the index's refresh interval to the start interval; leaving it restores the
 * saved stop interval.
 *
 * update and bulkUpdate are the exception: they use the metric unguarded. They are modelled as
 * written (UpdateAsWritten, BulkUpdateAsWritten) next to the guarded form the other calls have
 * (Update, BulkUpdate).
 *
 * The client is modelled from the point init(client, metric) returns; the calls on the bulk
 * processor and on the cluster client are recorded in two logs.
 */
module HttpBulkNode {
  import opened Common
  import opened Bulk
  import opened Metric
  import opened Text

  const RefreshInterval := "refresh_interval"

  /** stopBulk's call for an index: its refresh interval back to the saved stop interval. */
  function RestoreRefresh(bulk: map<string, Intervals>): (f: string -> ClientCall)
    ensures Targets(f)
  {
    // For an index without saved intervals Java's concatenation would read "null"; stopBulk
    // only restores indices in bulk mode, which have them.
    i => UpdateIndexSetting(i, RefreshInterval, if i in bulk then Millis(bulk[i].stop) else "nullms")
  }

  /** Restoring every index of the bulk map once touches each of them once and no other index. */
  lemma RestoresEachOnce(order: seq<string>, bulk: map<string, Intervals>, i: string)
    requires Enumerates(order, bulk.Keys)
    ensures multiset(Each(order, RestoreRefresh(bulk)))[RestoreRefresh(bulk)(i)] == if i in bulk then 1 else 0
  {
    EachOnce(order, bulk.Keys, RestoreRefresh(bulk), i);
  }

  /** The restored setting holds the saved stop interval, and can be read back as that number. */
  lemma RestoredValue(bulk: map<string, Intervals>, i: string)
    requires i in bulk
    ensures var value := RestoreRefresh(bulk)(i).value;
            value[..|value| - 2] == DecimalString(bulk[i].stop) && value[|value| - 2..] == "ms"
    ensures ParseDecimal(RestoreRefresh(bulk)(i).value[..|RestoreRefresh(bulk)(i).value| - 2]) == bulk[i].stop
  {
    var value := RestoreRefresh(bulk)(i).value;
    assert value == DecimalString(bulk[i].stop) + "ms";
    assert value[..|value| - 2] == DecimalString(bulk[i].stop);
    DecimalRoundTrip(bulk[i].stop);
  }

  class HttpBulkNodeClient {
    const metric: IngestMetric?
    var closed: bool
    var throwable: Option<Throwable>
    var processorCalls: seq<ProcessorCall>
    var clientCalls: seq<ClientCall>

    /** init(client, metric): starts the metric when there is one; the client is open. */
    constructor (metric: IngestMetric?)
      modifies metric
      ensures this.metric == metric && !closed && throwable == None
      ensures processorCalls == [] && clientCalls == []
      ensures metric != null ==> metric.started && metric.counters == old(metric.counters) && metric.bulk == old(metric.bulk)
    {
      this.metric := metric;
      closed := false;
      throwable := None;
      processorCalls := [];
      clientCalls := [];
      new;
      if metric != null {
        metric.Start();
      }
    }

    /** The listener's beforeBulk: with a metric, one more request in flight and its actions and bytes counted. */
    method BeforeBulk(request: BulkRequest)
      modifies this, metric
      ensures metric != null ==> metric.counters == Submitted(old(metric.counters), request).(currentIngest := old(metric.counters.currentIngest) + 1)
      ensures metric != null ==> metric.bulk == old(metric.bulk) && metric.started == old(metric.started)
      ensures closed == old(closed) && throwable == old(throwable)
      ensures processorCalls == old(processorCalls) && clientCalls == old(clientCalls)
    {
      if metric != null {
        metric.counters := metric.counters.(currentIngest := metric.counters.currentIngest + 1);
        var n := request.numberOfActions;
        metric.counters := metric.counters.(submitted := metric.counters.submitted + n);
        metric.counters := metric.counters.(currentIngestNumDocs := metric.counters.currentIngestNumDocs + n);
        metric.counters := metric.counters.(totalIngestSizeInBytes := metric.counters.totalIngestSizeInBytes + request.estimatedSizeInBytes);
      }
    }

    /**
     * The listener's afterBulk for a response: with a metric, one request less in flight and the
     * counters reconciled item by item. The failed items are counted whether or not there is a
     * metric, and only a response without failures releases its documents. The client stays open.
     */
    method AfterBulk(response: BulkResponse)
      modifies this, metric
      ensures metric != null ==> metric.counters == Reconciled(old(metric.counters), response).(currentIngest := old(metric.counters.currentIngest) - 1)
      ensures metric != null ==> metric.bulk == old(metric.bulk) && metric.started == old(metric.started)
      ensures closed == old(closed) && throwable == old(throwable)
      ensures processorCalls == old(processorCalls) && clientCalls == old(clientCalls)
    {
      var items := response.items;
      var m := |items|;
      ghost var before := if metric != null then metric.counters else NoCounters;
      if metric != null {
        metric.counters := metric.counters.(currentIngest := metric.counters.currentIngest - 1);
        metric.counters := metric.counters.(succeeded := metric.counters.succeeded + m);
        metric.counters := metric.counters.(failed := metric.counters.failed + 0);
        metric.counters := metric.counters.(totalIngest := Inc(metric.counters.totalIngest, response.tookInMillis));
      }
      var n := 0;
      var i := 0;
      while i < m
        modifies metric
        invariant 0 <= i <= m && n == FailedCount(items[..i])
        invariant metric != null ==> metric.bulk == old(metric.bulk) && metric.started == old(metric.started)
        invariant metric != null ==> metric.counters == before.(currentIngest := before.currentIngest - 1,
                                                                succeeded := before.succeeded + m - n,
                                                                failed := before.failed + n,
                                                                totalIngest := Inc(before.totalIngest, response.tookInMillis))
      {
        FailedCountStep(items, i);
        if items[i].isFailed {
          n := n + 1;
          if metric != null {
            metric.counters := metric.counters.(succeeded := metric.counters.succeeded - 1);
            metric.counters := metric.counters.(failed := metric.counters.failed + 1);
          }
        }
        i := i + 1;
      }
      assert items[..m] == items;
      if n == 0 {
        if metric != null {
          metric.counters := metric.counters.(currentIngestNumDocs := metric.counters.currentIngestNumDocs - m);
        }
      }
    }

    /** The listener's afterBulk for a failed request: the cause is kept and the client latched closed. */
    method AfterBulkFailure(failure: Throwable)
      modifies this, metric
      ensures metric != null ==> metric.counters == old(metric.counters).(currentIngest := old(metric.counters.currentIngest) - 1)
      ensures metric != null ==> metric.bulk == old(metric.bulk) && metric.started == old(metric.started)
      ensures throwable == Some(failure) && closed
      ensures processorCalls == old(processorCalls) && clientCalls == old(clientCalls)
    {
      if metric != null {
        metric.counters := metric.counters.(currentIngest := metric.counters.currentIngest - 1);
      }
      throwable := Some(failure);
      closed := true;
    }

    /**
     * The body of index, bulkIndex, delete and bulkDelete: throws when closed, otherwise adds the
     * action; what add throws (`failure`) is kept and latches the client closed. With a metric,
     * its in-flight gauge is raised around the add and lowered in the finally block.
     */
    method Submit(request: ActionRequest, failure: Option<Throwable>) returns (outcome: Outcome)
      modifies this, metric
      ensures old(closed) ==> outcome == Threw(Elasticsearch(ClientIsClosed)) && processorCalls == old(processorCalls)
      ensures old(closed) ==> closed && throwable == old(throwable)
      ensures !old(closed) ==> outcome == Returned && processorCalls == old(processorCalls) + [Add(request)]
      ensures !old(closed) ==> closed == failure.Some? && throwable == if failure.Some? then failure else old(throwable)
      ensures metric != null ==> metric.counters == old(metric.counters) && metric.bulk == old(metric.bulk)
      ensures metric != null ==> metric.started == old(metric.started)
      ensures clientCalls == old(clientCalls)
    {
      if closed {
        return Threw(Elasticsearch(ClientIsClosed));
      }
      if metric != null {
        metric.counters := metric.counters.(currentIngest := metric.counters.currentIngest + 1);
      }
      processorCalls := processorCalls + [Add(request)];
      if failure.Some? {
        throwable := failure;
        closed := true;
      }
      if metric != null {
        metric.counters := metric.counters.(currentIngest := metric.counters.currentIngest - 1);
      }
      outcome := Returned;
    }

    /** index(index, type, id, source): adds an index request that does not insist on creating. */
    method Index(index: string, docType: string, id: string, source: string, failure: Option<Throwable>)
      returns (outcome: Outcome)
      modifies this, metric
      ensures old(closed) ==> outcome == Threw(Elasticsearch(ClientIsClosed)) && processorCalls == old(processorCalls)
      ensures old(closed) ==> closed && throwable == old(throwable)
      ensures !old(closed) ==> outcome == Returned
      ensures !old(closed) ==> processorCalls == old(processorCalls) + [Add(IndexRequest(index, docType, id, source, false))]
      ensures !old(closed) ==> closed == failure.Some? && throwable == if failure.Some? then failure else old(throwable)
      ensures metric != null ==> metric.counters == old(metric.counters) && metric.bulk == old(metric.bulk)
      ensures metric != null ==> metric.started == old(metric.started)
      ensures clientCalls == old(clientCalls)
    {
      outcome := Submit(IndexRequest(index, docType, id, source, false), failure);
    }

    method BulkIndex(request: ActionRequest, failure: Option<Throwable>) returns (outcome: Outcome)
      requires request.IndexRequest?
      modifies this, metric
      ensures old(closed) ==> outcome == Threw(Elasticsearch(ClientIsClosed)) && processorCalls == old(processorCalls)
      ensures old(closed) ==> closed && throwable == old(throwable)
      ensures !old(closed) ==> outcome == Returned && processorCalls == old(processorCalls) + [Add(request)]
      ensures !old(closed) ==> closed == failure.Some? && throwable == if failure.Some? then failure else old(throwable)
      ensures metric != null ==> metric.counters == old(metric.counters) && metric.bulk == old(metric.bulk)
      ensures metric != null ==> metric.started == old(metric.started)
      ensures clientCalls == old(clientCalls)
    {
      outcome := Submit(request, failure);
    }

    method Delete(index: string, docType: string, id: string, failure: Option<Throwable>) returns (outcome: Outcome)
      modifies this, metric
      ensures old(closed) ==> outcome == Threw(Elasticsearch(ClientIsClosed)) && processorCalls == old(processorCalls)
      ensures old(closed) ==> closed && throwable == old(throwable)
      ensures !old(closed) ==> outcome == Returned
      ensures !old(closed) ==> processorCalls == old(processorCalls) + [Add(DeleteRequest(index, docType, id))]
      ensures !old(closed) ==> closed == failure.Some? && throwable == if failure.Some? then failure else old(throwable)
      ensures metric != null ==> metric.counters == old(metric.counters) && metric.bulk == old(metric.bulk)
      ensures metric != null ==> metric.started == old(metric.started)
      ensures clientCalls == old(clientCalls)
    {
      outcome := Submit(DeleteRequest(index, docType, id), failure);
    }

    method BulkDelete(request: ActionRequest, failure: Option<Throwable>) returns (outcome: Outcome)
      requires request.DeleteRequest?
      modifies this, metric
      ensures old(closed) ==> outcome == Threw(Elasticsearch(ClientIsClosed)) && processorCalls == old(processorCalls)
      ensures old(closed) ==> closed && throwable == old(throwable)
      ensures !old(closed) ==> outcome == Returned && processorCalls == old(processorCalls) + [Add(request)]
      ensures !old(closed) ==> closed == failure.Some? && throwable == if failure.Some? then failure else old(throwable)
      ensures metric != null ==> metric.counters == old(metric.counters) && metric.bulk == old(metric.bulk)
      ensures metric != null ==> metric.started == old(metric.started)
      ensures clientCalls == old(clientCalls)
    {
      outcome := Submit(request, failure);
    }

    /**
     * update and bulkUpdate as written: the metric is used without a null check. Without a
     * metric, raising the gauge throws a NullPointerException before add is reached; the catch
     * block keeps it as the cause and latches the client closed; lowering the gauge in the
     * finally block throws again, and that exception leaves the call.
     */
    method SubmitUnguarded(request: ActionRequest, failure: Option<Throwable>) returns (outcome: Outcome)
      modifies this, metric
      ensures old(closed) ==> outcome == Threw(Elasticsearch(ClientIsClosed)) && processorCalls == old(processorCalls)
      ensures old(closed) ==> closed && throwable == old(throwable)
      ensures !old(closed) && metric == null ==> outcome == Threw(NullPointer) && processorCalls == old(processorCalls)
      ensures !old(closed) && metric == null ==> closed && throwable == Some(NullPointer)
      ensures !old(closed) && metric != null ==> outcome == Returned && processorCalls == old(processorCalls) + [Add(request)]
      ensures !old(closed) && metric != null ==> closed == failure.Some? && throwable == if failure.Some? then failure else old(throwable)
      ensures metric != null ==> metric.counters == old(metric.counters) && metric.bulk == old(metric.bulk)
      ensures metric != null ==> metric.started == old(metric.started)
      ensures clientCalls == old(clientCalls)
    {
      if closed {
        return Threw(Elasticsearch(ClientIsClosed));
      }
      if metric == null {
        throwable := Some(NullPointer);
        closed := true;
        return Threw(NullPointer);
      }
      metric.counters := metric.counters.(currentIngest := metric.counters.currentIngest + 1);
      processorCalls := processorCalls + [Add(request)];
      if failure.Some? {
        throwable := failure;
        closed := true;
      }
      metric.counters := metric.counters.(currentIngest := metric.counters.currentIngest - 1);
      outcome := Returned;
    }

    /** update(index, type, id, source) as written: adds an update request upserting the source. */
    method UpdateAsWritten(index: string, docType: string, id: string, source: string, failure: Option<Throwable>)
      returns (outcome: Outcome)
      modifies this, metric
      ensures old(closed) ==> outcome == Threw(Elasticsearch(ClientIsClosed)) && processorCalls == old(processorCalls)
      ensures old(closed) ==> closed && throwable == old(throwable)
      ensures !old(closed) && metric == null ==> outcome == Threw(NullPointer) && processorCalls == old(processorCalls)
      ensures !old(closed) && metric == null ==> closed && throwable == Some(NullPointer)
      ensures !old(closed) && metric != null ==> outcome == Returned
      ensures !old(closed) && metric != null ==> processorCalls == old(processorCalls) + [Add(UpdateRequest(index, docType, id, source))]
      ensures !old(closed) && metric != null ==> closed == failure.Some? && throwable == if failure.Some? then failure else old(throwable)
      ensures metric != null ==> metric.counters == old(metric.counters) && metric.bulk == old(metric.bulk)
      ensures metric != null ==> metric.started == old(metric.started)
      ensures clientCalls == old(clientCalls)
    {
      outcome := SubmitUnguarded(UpdateRequest(index, docType, id, source), failure);
    }

    /** bulkUpdate(updateRequest) as written. */
    method BulkUpdateAsWritten(request: ActionRequest, failure: Option<Throwable>) returns (outcome: Outcome)
      requires request.UpdateRequest?
      modifies this, metric
      ensures old(closed) ==> outcome == Threw(Elasticsearch(ClientIsClosed)) && processorCalls == old(processorCalls)
      ensures old(closed) ==> closed && throwable == old(throwable)
      ensures !old(closed) && metric == null ==> outcome == Threw(NullPointer) && processorCalls == old(processorCalls)
      ensures !old(closed) && metric == null ==> closed && throwable == Some(NullPointer)
      ensures !old(closed) && metric != null ==> outcome == Returned && processorCalls == old(processorCalls) + [Add(request)]
      ensures !old(closed) && metric != null ==> closed == failure.Some? && throwable == if failure.Some? then failure else old(throwable)
      ensures metric != null ==> metric.counters == old(metric.counters) && metric.bulk == old(metric.bulk)
      ensures metric != null ==> metric.started == old(metric.started)
      ensures clientCalls == old(clientCalls)
    {
      outcome := SubmitUnguarded(request, failure);
    }

    /** update(index, type, id, source) with the metric guarded as in the other ingest calls. */
    method Update(index: string, docType: string, id: string, source: string, failure: Option<Throwable>)
      returns (outcome: Outcome)
      modifies this, metric
      ensures old(closed) ==> outcome == Threw(Elasticsearch(ClientIsClosed)) && processorCalls == old(processorCalls)
      ensures old(closed) ==> closed && throwable == old(throwable)
      ensures !old(closed) ==> outcome == Returned
      ensures !old(closed) ==> processorCalls == old(processorCalls) + [Add(UpdateRequest(index, docType, id, source))]
      ensures !old(closed) ==> closed == failure.Some? && throwable == if failure.Some? then failure else old(throwable)
      ensures metric != null ==> metric.counters == old(metric.counters) && metric.bulk == old(metric.bulk)
      ensures metric != null ==> metric.started == old(metric.started)
      ensures clientCalls == old(clientCalls)
    {
      outcome := Submit(UpdateRequest(index, docType, id, source), failure);
    }

    /** bulkUpdate(updateRequest) with the metric guarded. */
    method BulkUpdate(request: ActionRequest, failure: Option<Throwable>) returns (outcome: Outcome)
      requires request.UpdateRequest?
      modifies this, metric
      ensures old(closed) ==> outcome == Threw(Elasticsearch(ClientIsClosed)) && processorCalls == old(processorCalls)
      ensures old(closed) ==> closed && throwable == old(throwable)
      ensures !old(closed) ==> outcome == Returned && processorCalls == old(processorCalls) + [Add(request)]
      ensures !old(closed) ==> closed == failure.Some? && throwable == if failure.Some? then failure else old(throwable)
      ensures metric != null ==> metric.counters == old(metric.counters) && metric.bulk == old(metric.bulk)
      ensures metric != null ==> metric.started == old(metric.started)
      ensures clientCalls == old(clientCalls)
    {
      outcome := Submit(request, failure);
    }

    /** flushIngest: flushes the bulk processor, unless the client is closed. */
    method FlushIngest() returns (outcome: Outcome)
      modifies this
      ensures outcome == if old(closed) then Threw(Elasticsearch(ClientIsClosed)) else Returned
      ensures processorCalls == if old(closed) then old(processorCalls) else old(processorCalls) + [Flush]
      ensures closed == old(closed) && throwable == old(throwable) && clientCalls == old(clientCalls)
    {
      if closed {
        return Threw(Elasticsearch(ClientIsClosed));
      }
      processorCalls := processorCalls + [Flush];
      outcome := Returned;
    }

    /**
     * waitForResponses: unless closed, asks the bulk processor to await its close, again and again,
     * until it says it has closed; `refusals` is how many times it answers that it has not.
     */
    method WaitForResponses(maxWaitMillis: int, refusals: nat) returns (outcome: Outcome)
      modifies this
      ensures outcome == if old(closed) then Threw(Elasticsearch(ClientIsClosed)) else Returned
      ensures processorCalls == if old(closed) then old(processorCalls)
                                else old(processorCalls) + Repeat(AwaitClose(maxWaitMillis), refusals + 1)
      ensures closed == old(closed) && throwable == old(throwable) && clientCalls == old(clientCalls)
    {
      if closed {
        return Threw(Elasticsearch(ClientIsClosed));
      }
      var asked := 0;
      var answered := false;
      while !answered
        invariant asked <= refusals + 1 && answered == (asked == refusals + 1)
        invariant processorCalls == old(processorCalls) + Repeat(AwaitClose(maxWaitMillis), asked)
        invariant closed == old(closed) && throwable == old(throwable) && clientCalls == old(clientCalls)
        decreases refusals + 1 - asked
      {
        RepeatStep(AwaitClose(maxWaitMillis), asked);
        processorCalls := processorCalls + [AwaitClose(maxWaitMillis)];
        asked := asked + 1;
        answered := asked > refusals;
      }
      outcome := Returned;
    }

    /**
     * startBulk(index, start, stop): with a metric, an index not yet in bulk mode has both intervals
     * saved and its refresh interval set to the start interval. Without a metric, nothing happens.
     */
    method StartBulk(index: string, startMillis: int, stopMillis: int)
      modifies this, metric
      ensures metric == null || index in old(metric.bulk) ==> clientCalls == old(clientCalls)
      ensures metric != null && index !in old(metric.bulk) ==>
                clientCalls == old(clientCalls) + [UpdateIndexSetting(index, RefreshInterval, Millis(startMillis))]
      ensures metric != null ==> metric.bulk == if index in old(metric.bulk) then old(metric.bulk)
                                                else old(metric.bulk)[index := Intervals(startMillis, stopMillis)]
      ensures metric != null ==> metric.counters == old(metric.counters) && metric.started == old(metric.started)
      ensures closed == old(closed) && throwable == old(throwable) && processorCalls == old(processorCalls)
    {
      if metric == null {
        return;
      }
      if !metric.IsBulk(index) {
        metric.SetupBulk(index, startMillis, stopMillis);
        clientCalls := clientCalls + [UpdateIndexSetting(index, RefreshInterval, Millis(startMillis))];
      }
    }

    /**
     * stopBulk(index): with a metric, an index in bulk mode has its refresh interval set back to
     * its saved stop interval and its intervals forgotten. Without a metric, nothing happens.
     */
    method StopBulk(index: string)
      modifies this, metric
      ensures metric == null || index !in old(metric.bulk) ==> clientCalls == old(clientCalls)
      ensures metric != null && index in old(metric.bulk) ==>
                clientCalls == old(clientCalls) + [RestoreRefresh(old(metric.bulk))(index)]
      ensures metric != null ==> metric.bulk == old(metric.bulk) - {index}
      ensures metric != null ==> metric.counters == old(metric.counters) && metric.started == old(metric.started)
      ensures closed == old(closed) && throwable == old(throwable) && processorCalls == old(processorCalls)
    {
      if metric == null {
        return;
      }
      if metric.IsBulk(index) {
        var stop := metric.StopInterval(index);
        clientCalls := clientCalls + [UpdateIndexSetting(index, RefreshInterval, Millis(stop.value))];
        metric.RemoveBulk(index);
      }
    }

    /**
     * shutdown: closes the bulk processor and, with a metric, restores every index in bulk mode,
     * walking a copy of its indices in some order. The cluster client is not closed and the latch
     * is left as it was.
     */
    method Shutdown() returns (ghost order: seq<string>)
      modifies this, metric
      ensures processorCalls == old(processorCalls) + [Close]
      ensures metric == null ==> order == [] && clientCalls == old(clientCalls)
      ensures metric != null ==> Enumerates(order, old(metric.bulk).Keys) && metric.bulk == map[]
      ensures metric != null ==> clientCalls == old(clientCalls) + Each(order, RestoreRefresh(old(metric.bulk)))
      ensures metric != null ==> metric.counters == old(metric.counters) && metric.started == old(metric.started)
      ensures closed == old(closed) && throwable == old(throwable)
    {
      processorCalls := processorCalls + [Close];
      order := [];
      if metric == null {
        return;
      }
      if metric.Indices() == {} {
        assert metric.bulk == map[];
        EnumeratesNothing(order);
        assert clientCalls + Each(order, RestoreRefresh(metric.bulk)) == clientCalls;
        return;
      }
      order := RestoreAll();
    }

    /** The loop of shutdown: stopBulk for each index of a copy of the bulk map's indices. */
    method RestoreAll() returns (ghost order: seq<string>)
      requires metric != null
      modifies this, metric
      ensures Enumerates(order, old(metric.bulk).Keys) && metric.bulk == map[]
      ensures clientCalls == old(clientCalls) + Each(order, RestoreRefresh(old(metric.bulk)))
      ensures metric.counters == old(metric.counters) && metric.started == old(metric.started)
      ensures processorCalls == old(processorCalls) && closed == old(closed) && throwable == old(throwable)
    {
      order := [];
      ghost var snapshot := metric.bulk;
      ghost var removed: set<string> := {};
      var pending := metric.Indices();
      while pending != {}
        invariant pending == snapshot.Keys - removed && metric.bulk == snapshot - removed
        invariant Enumerates(order, removed) && removed <= snapshot.Keys
        invariant clientCalls == old(clientCalls) + Each(order, RestoreRefresh(snapshot))
        invariant metric.counters == old(metric.counters) && metric.started == old(metric.started)
        invariant processorCalls == old(processorCalls) && closed == old(closed) && throwable == old(throwable)
        decreases pending
      {
        var index :| index in pending;
        StopBulk(index);
        RestoreStep(old(clientCalls), order, snapshot, snapshot - removed, index);
        EnumeratesStep(order, removed, index);
        RemoveOneMore(snapshot, removed, index);
        order := order + [index];
        removed := removed + {index};
        pending := pending - {index};
      }
      assert removed == snapshot.Keys;
    }

    /** hasThrowable: a failure cause has been recorded. */
    predicate HasThrowable()
      reads this
    {
      throwable.Some?
    }
  }

  /** Restoring one more index, whose intervals are still the saved ones, extends the restored list. */
  lemma RestoreStep(calls: seq<ClientCall>, order: seq<string>, snapshot: map<string, Intervals>,
                    current: map<string, Intervals>, index: string)
    requires index in current && index in snapshot && current[index] == snapshot[index]
    ensures calls + Each(order, RestoreRefresh(snapshot)) + [RestoreRefresh(current)(index)]
         == calls + Each(order + [index], RestoreRefresh(snapshot))
  {
    EachStep(order, RestoreRefresh(snapshot), index);
    assert RestoreRefresh(current)(index) == RestoreRefresh(snapshot)(index);
    var e := Each(order, RestoreRefresh(snapshot));
    var x := RestoreRefresh(snapshot)(index);
    assert calls + e + [x] == calls + (e + [x]);
  }

  lemma RemoveOneMore(m: map<string, Intervals>, removed: set<string>, x: string)
    ensures (m - removed) - {x} == m - (removed + {x})
  {
  }

  /** `n` copies of a call. */
  function Repeat(call: ProcessorCall, n: nat): (r: seq<ProcessorCall>)
    ensures |r| == n && forall k :: 0 <= k < n ==> r[k] == call
  {
    if n == 0 then [] else Repeat(call, n - 1) + [call]
  }

  lemma RepeatStep(call: ProcessorCall, n: nat)
    ensures Repeat(call, n + 1) == Repeat(call, n) + [call]
  {
  }

  /**
   * Without a metric, update as written throws a NullPointerException, latches the client closed
   * and never reaches the bulk processor; the guarded update adds the request and returns.
   */
  method UpdateWithoutMetric(failure: Option<Throwable>)
    returns (asWritten: Outcome, closedAsWritten: bool, addedAsWritten: nat,
             guarded: Outcome, closedGuarded: bool, addedGuarded: nat)
    ensures asWritten == Threw(NullPointer) && closedAsWritten && addedAsWritten == 0
    ensures guarded == Returned && closedGuarded == failure.Some? && addedGuarded == 1
  {
    var a := new HttpBulkNodeClient(null);
    asWritten := a.UpdateAsWritten("index", "type", "1", "{}", failure);
    closedAsWritten := a.closed;
    addedAsWritten := |a.processorCalls|;
    var b := new HttpBulkNodeClient(null);
    guarded := b.Update("index", "type", "1", "{}", failure);
    closedGuarded := b.closed;
    addedGuarded := |b.processorCalls|;
  }
}
