/**
 * Runs of the three clients from a fresh start: a stream of bulk requests and their responses
 * through the listener, a partial failure, a transport failure followed by another ingest call,
 * and two indices in bulk mode taken out of it by shutdown.
 */
module Scenarios {
  import opened Common
  import opened Bulk
  import opened BulkNode
  import opened Node
  import opened Metric
  import opened HttpBulkNode
  import opened Text

  /** A bulk request the processor sent, and the response the listener then received for it. */
  datatype Exchange = Exchange(request: BulkRequest, response: BulkResponse)

  /** The actions of all requests. */
  function Actions(xs: seq<Exchange>): int
    decreases |xs|
  {
    if xs == [] then 0 else Actions(xs[..|xs| - 1]) + xs[|xs| - 1].request.numberOfActions
  }

  /** The items of all responses. */
  function Items(xs: seq<Exchange>): int
    decreases |xs|
  {
    if xs == [] then 0 else Items(xs[..|xs| - 1]) + |xs[|xs| - 1].response.items|
  }

  /** The failed items of all responses. */
  function Failures(xs: seq<Exchange>): int
    decreases |xs|
  {
    if xs == [] then 0 else Failures(xs[..|xs| - 1]) + FailedCount(xs[|xs| - 1].response.items)
  }

  /** The items of the responses without failures: the documents the listener releases. */
  function Released(xs: seq<Exchange>): int
    decreases |xs|
  {
    if xs == [] then 0
    else Released(xs[..|xs| - 1]) + (if HasFailures(xs[|xs| - 1].response) then 0 else |xs[|xs| - 1].response.items|)
  }

  /** Every response answers each action of its request with one item, and no item failed. */
  ghost predicate AllAnswered(xs: seq<Exchange>)
  {
    forall k :: 0 <= k < |xs| ==> !HasFailures(xs[k].response) && |xs[k].response.items| == xs[k].request.numberOfActions
  }

  /** Some response has a failed item. */
  ghost predicate SomeFailure(xs: seq<Exchange>)
  {
    exists k :: 0 <= k < |xs| && HasFailures(xs[k].response)
  }

  lemma SomeFailureStep(xs: seq<Exchange>, x: Exchange)
    ensures SomeFailure(xs + [x]) <==> SomeFailure(xs) || HasFailures(x.response)
  {
    var ys := xs + [x];
    if SomeFailure(xs) {
      var k :| 0 <= k < |xs| && HasFailures(xs[k].response);
      assert ys[k] == xs[k];
    }
    if SomeFailure(ys) {
      var k :| 0 <= k < |ys| && HasFailures(ys[k].response);
      if k < |xs| {
        assert xs[k] == ys[k];
      }
    }
    if HasFailures(x.response) {
      assert ys[|xs|] == x;
    }
  }

  /**
   * When every response answers every action and none failed, nothing counts as failed, every
   * document is released, and the items answered are the actions submitted.
   */
  lemma {:induction false} AllAnsweredTotals(xs: seq<Exchange>)
    requires AllAnswered(xs)
    ensures Failures(xs) == 0 && Released(xs) == Items(xs) == Actions(xs)
    decreases |xs|
  {
    if xs != [] {
      var init := xs[..|xs| - 1];
      assert AllAnswered(init) by {
        forall k | 0 <= k < |init| ensures !HasFailures(init[k].response) && |init[k].response.items| == init[k].request.numberOfActions {
          assert init[k] == xs[k];
        }
      }
      AllAnsweredTotals(init);
      FailedCountPositive(xs[|xs| - 1].response.items);
    }
  }

  /** The failures never outnumber the items. */
  lemma {:induction false} FailuresAtMostItems(xs: seq<Exchange>)
    ensures 0 <= Failures(xs) <= Items(xs)
    decreases |xs|
  {
    if xs != [] {
      FailuresAtMostItems(xs[..|xs| - 1]);
    }
  }

  /**
   * A BulkNodeClient whose responses all arrive, failed items or not: every action is counted as
   * submitted, every item as a success or a failure, only the documents of responses without
   * failures are released, and the client stays open with no request in flight and no cause
   * recorded.
   */
  method IngestAllBulkNode(exchanges: seq<Exchange>) returns (c: Counters, closed: bool, inFlight: int, throwable: Option<Throwable>)
    ensures c.submitted == Actions(exchanges)
    ensures c.succeeded == Items(exchanges) - Failures(exchanges) && c.failed == Failures(exchanges)
    ensures c.currentIngestNumDocs == Actions(exchanges) - Released(exchanges)
    ensures !closed && inFlight == 0 && throwable == None
    ensures AllAnswered(exchanges) ==> c.succeeded == c.submitted && c.failed == 0 && c.currentIngestNumDocs == 0
  {
    var client := new BulkNodeClient(true);
    var i := 0;
    while i < |exchanges|
      invariant 0 <= i <= |exchanges| && fresh(client.state)
      invariant var done := exchanges[..i];
                && client.state.counters.submitted == Actions(done)
                && client.state.counters.succeeded == Items(done) - Failures(done)
                && client.state.counters.failed == Failures(done)
                && client.state.counters.currentIngestNumDocs == Actions(done) - Released(done)
      invariant !client.closed && client.concurrentRequests == 0 && client.throwable == None
    {
      assert exchanges[..i + 1][..i] == exchanges[..i];
      FailedCountPositive(exchanges[i].response.items);
      client.BeforeBulk(exchanges[i].request);
      client.AfterBulk(exchanges[i].response);
      i := i + 1;
    }
    assert exchanges[..i] == exchanges;
    c, closed, inFlight, throwable := client.state.counters, client.closed, client.concurrentRequests, client.throwable;
    if AllAnswered(exchanges) {
      AllAnsweredTotals(exchanges);
    }
  }

  /**
   * The same stream through a NodeClient: the counters come out the same, but the client ends
   * closed exactly when some response had a failed item; no cause is recorded for it.
   */
  method IngestAllNode(exchanges: seq<Exchange>) returns (c: Counters, closed: bool, throwable: Option<Throwable>)
    ensures c.submitted == Actions(exchanges)
    ensures c.succeeded == Items(exchanges) - Failures(exchanges) && c.failed == Failures(exchanges)
    ensures c.currentIngestNumDocs == Actions(exchanges) - Released(exchanges)
    ensures closed <==> SomeFailure(exchanges)
    ensures throwable == None
  {
    var client := new NodeClient(true);
    var i := 0;
    while i < |exchanges|
      invariant 0 <= i <= |exchanges| && fresh(client.state)
      invariant var done := exchanges[..i];
                && client.state.counters.submitted == Actions(done)
                && client.state.counters.succeeded == Items(done) - Failures(done)
                && client.state.counters.failed == Failures(done)
                && client.state.counters.currentIngestNumDocs == Actions(done) - Released(done)
                && (client.closed <==> SomeFailure(done))
      invariant client.throwable == None
    {
      assert exchanges[..i + 1][..i] == exchanges[..i];
      SomeFailureStep(exchanges[..i], exchanges[i]);
      FailedCountPositive(exchanges[i].response.items);
      client.BeforeBulk(exchanges[i].request);
      client.AfterBulk(exchanges[i].response);
      i := i + 1;
    }
    assert exchanges[..i] == exchanges;
    c, closed, throwable := client.state.counters, client.closed, client.throwable;
  }

  /** The response has `m` items of which only the `j`-th failed. */
  ghost predicate OnlyItemFailed(response: BulkResponse, j: nat)
  {
    j < |response.items| && forall k :: 0 <= k < |response.items| ==> (response.items[k].isFailed <==> k == j)
  }

  /**
   * Partial failure isolation: one rejected item out of m gives m - 1 successes and one failure.
   * BulkNodeClient and HttpBulkNodeClient stay open and still accept actions; NodeClient closes
   * and refuses the next action. In all three the documents of the request are not released.
   */
  method PartialFailure(request: BulkRequest, response: BulkResponse, j: nat, action: ActionRequest)
    returns (bulkNode: Counters, bulkNodeNext: Outcome, node: Counters, nodeNext: Outcome,
             http: Counters, httpNext: Outcome, httpHasThrowable: bool)
    requires OnlyItemFailed(response, j) && action.IndexRequest?
    ensures bulkNode.succeeded == node.succeeded == http.succeeded == |response.items| - 1
    ensures bulkNode.failed == node.failed == http.failed == 1
    ensures bulkNode.currentIngestNumDocs == node.currentIngestNumDocs == http.currentIngestNumDocs
         == request.numberOfActions
    ensures bulkNodeNext == Returned && httpNext == Returned
    ensures nodeNext == Threw(IllegalState(ClientIsClosed))
    ensures !httpHasThrowable
  {
    FailedCountSingle(response.items, j);
    FailedCountPositive(response.items);
    var b := new BulkNodeClient(true);
    b.BeforeBulk(request);
    b.AfterBulk(response);
    bulkNode := b.state.counters;
    bulkNodeNext := b.BulkIndex(action, None);

    var n := new NodeClient(true);
    n.BeforeBulk(request);
    n.AfterBulk(response);
    node := n.state.counters;
    nodeNext := n.Index(action, None);

    var metric := new IngestMetric();
    var h := new HttpBulkNodeClient(metric);
    h.BeforeBulk(request);
    h.AfterBulk(response);
    http := metric.counters;
    httpNext := h.BulkIndex(action, None);
    httpHasThrowable := h.HasThrowable();
  }

  /**
   * A transport failure after a first exchange: the client keeps the cause, is closed, and the
   * next action is refused without reaching the bulk processor; the counters still show the
   * first exchange in full and the second request as submitted.
   */
  method TransportFailure(first: Exchange, second: BulkRequest, cause: Throwable, action: ActionRequest)
    returns (c: Counters, outcome: Outcome, throwable: Option<Throwable>, hasThrowable: bool, adds: nat)
    requires action.DeleteRequest?
    ensures c.submitted == first.request.numberOfActions + second.numberOfActions
    ensures c.succeeded + c.failed == |first.response.items|
    ensures outcome == Threw(IllegalState(ClientIsClosed)) && throwable == Some(cause) && hasThrowable && adds == 0
  {
    var client := new BulkNodeClient(true);
    client.BeforeBulk(first.request);
    client.AfterBulk(first.response);
    client.BeforeBulk(second);
    client.AfterBulkFailure(cause);
    outcome := client.BulkDelete(action, None);
    c, throwable, adds := client.state.counters, client.throwable, |client.processorCalls|;
    hasThrowable := client.HasThrowable();
  }

  /**
   * Two indices put into bulk mode with their own intervals: the first shutdown sets each back to
   * its own stop interval exactly once, and a second shutdown restores nothing.
   */
  method TwoIndicesRestored(a: string, startA: int, stopA: int, b: string, startB: int, stopB: int)
    returns (starts: seq<ClientCall>, restores: seq<ClientCall>, again: seq<ClientCall>)
    requires a != b
    ensures starts == [UpdateIndexSetting(a, RefreshInterval, Millis(startA)),
                       UpdateIndexSetting(b, RefreshInterval, Millis(startB))]
    ensures |restores| == 2
    ensures multiset(restores)[UpdateIndexSetting(a, RefreshInterval, Millis(stopA))] == 1
    ensures multiset(restores)[UpdateIndexSetting(b, RefreshInterval, Millis(stopB))] == 1
    ensures again == []
  {
    var metric := new IngestMetric();
    var client := new HttpBulkNodeClient(metric);
    client.StartBulk(a, startA, stopA);
    client.StartBulk(b, startB, stopB);
    starts := client.clientCalls;
    ghost var saved := metric.bulk;
    ghost var order := client.Shutdown();
    restores := client.clientCalls[|starts|..];
    assert restores == Each(order, RestoreRefresh(saved));
    TwoRestores(order, a, startA, stopA, b, startB, stopB);
    var before := client.clientCalls;
    ghost var second := client.Shutdown();
    EnumeratesNothing(second);
    again := client.clientCalls[|before|..];
  }

  /** Listing the two indices of a bulk map, each is set back to its own stop interval once. */
  lemma TwoRestores(order: seq<string>, a: string, startA: int, stopA: int, b: string, startB: int, stopB: int)
    requires a != b
    requires Enumerates(order, map[a := Intervals(startA, stopA)][b := Intervals(startB, stopB)].Keys)
    ensures var restores := Each(order, RestoreRefresh(map[a := Intervals(startA, stopA)][b := Intervals(startB, stopB)]));
            && |restores| == 2
            && multiset(restores)[UpdateIndexSetting(a, RefreshInterval, Millis(stopA))] == 1
            && multiset(restores)[UpdateIndexSetting(b, RefreshInterval, Millis(stopB))] == 1
  {
    var saved := map[a := Intervals(startA, stopA)][b := Intervals(startB, stopB)];
    assert saved.Keys == {a, b};
    EnumeratesLength(order, saved.Keys);
    RestoresEachOnce(order, saved, a);
    RestoresEachOnce(order, saved, b);
    assert RestoreRefresh(saved)(a) == UpdateIndexSetting(a, RefreshInterval, Millis(stopA));
    assert RestoreRefresh(saved)(b) == UpdateIndexSetting(b, RefreshInterval, Millis(stopB));
  }
}
