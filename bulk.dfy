/**
 * What the three ingest clients exchange with their collaborators: the actions they add to
 * the bulk processor, the bulk requests and responses its listener receives, the ingest
 * counters the listener keeps, and logs of the calls made on the bulk processor and on the
 * cluster client. The collaborators themselves are not modelled; a log records, in order,
 * what the client asked of them.
 */
module Bulk {
  import opened Common

  /** An action handed to bulkProcessor.add. */
  datatype ActionRequest =
    | IndexRequest(index: string, docType: string, id: string, source: string, create: bool)
    | DeleteRequest(index: string, docType: string, id: string)
    | UpdateRequest(index: string, docType: string, id: string, upsert: string)

  /** What beforeBulk reads of a bulk request. */
  datatype BulkRequest = BulkRequest(numberOfActions: nat, estimatedSizeInBytes: int)

  /** What afterBulk reads of a bulk response: one entry per item, and the time taken. */
  datatype ItemResponse = ItemResponse(isFailed: bool)
  datatype BulkResponse = BulkResponse(items: seq<ItemResponse>, tookInMillis: int)

  /** The number of failed items among `items`. */
  function FailedCount(items: seq<ItemResponse>): (f: nat)
    ensures f <= |items|
    decreases |items|
  {
    if items == [] then 0
    else FailedCount(items[..|items| - 1]) + (if items[|items| - 1].isFailed then 1 else 0)
  }

  /** BulkResponse.hasFailures: some item failed. */
  predicate HasFailures(r: BulkResponse)
  {
    exists k :: 0 <= k < |r.items| && r.items[k].isFailed
  }

  /** One more item counts one more failure exactly when it failed. */
  lemma FailedCountStep(items: seq<ItemResponse>, i: nat)
    requires i < |items|
    ensures FailedCount(items[..i + 1]) == FailedCount(items[..i]) + (if items[i].isFailed then 1 else 0)
  {
    assert items[..i + 1][..i] == items[..i];
  }

  /** A response has failures exactly when its failure count is positive. */
  lemma {:induction false} FailedCountPositive(items: seq<ItemResponse>)
    ensures FailedCount(items) > 0 <==> exists k :: 0 <= k < |items| && items[k].isFailed
    decreases |items|
  {
    if items != [] {
      var init := items[..|items| - 1];
      FailedCountPositive(init);
      if exists k :: 0 <= k < |init| && init[k].isFailed {
        var k :| 0 <= k < |init| && init[k].isFailed;
        assert items[k].isFailed;
      }
      if exists k :: 0 <= k < |items| && items[k].isFailed {
        var k :| 0 <= k < |items| && items[k].isFailed;
        if k < |init| {
          assert init[k].isFailed;
        }
      }
    }
  }

  /** The failure count of a response is all its items exactly when every item failed. */
  lemma {:induction false} FailedCountAll(items: seq<ItemResponse>)
    ensures FailedCount(items) == |items| <==> forall k :: 0 <= k < |items| ==> items[k].isFailed
    decreases |items|
  {
    if items != [] {
      var init := items[..|items| - 1];
      FailedCountAll(init);
      if forall k :: 0 <= k < |items| ==> items[k].isFailed {
        assert forall k :: 0 <= k < |init| ==> init[k].isFailed by {
          forall k | 0 <= k < |init| ensures init[k].isFailed {
            assert init[k] == items[k];
          }
        }
      }
      if !items[|items| - 1].isFailed {
        assert FailedCount(items) <= |init|;
      }
    }
  }

  /** A response in which exactly one item failed counts one failure. */
  lemma FailedCountSingle(items: seq<ItemResponse>, j: nat)
    requires j < |items| && forall k :: 0 <= k < |items| ==> (items[k].isFailed <==> k == j)
    ensures FailedCount(items) == 1
  {
    FailedCountPrefix(items, j, |items|);
    assert items[..|items|] == items;
  }

  /** The failures among the first `i` items: one once the failed item `j` is among them. */
  lemma {:induction false} FailedCountPrefix(items: seq<ItemResponse>, j: nat, i: nat)
    requires j < |items| && i <= |items| && forall k :: 0 <= k < |items| ==> (items[k].isFailed <==> k == j)
    ensures FailedCount(items[..i]) == if i > j then 1 else 0
    decreases i
  {
    if i > 0 {
      FailedCountPrefix(items, j, i - 1);
      FailedCountStep(items, i - 1);
    }
  }

  /** MeanMetric without its floating point: the sum of the values and how many there were. */
  datatype Mean = Mean(sum: int, count: nat)

  /** The ingest counters of State and IngestMetric (each CounterMetric as an unbounded count). */
  datatype Counters = Counters(
    submitted: int,
    succeeded: int,
    failed: int,
    currentIngest: int,
    currentIngestNumDocs: int,
    totalIngestSizeInBytes: int,
    totalIngest: Mean)

  /** All counters at zero, as a new State or IngestMetric has them. */
  const NoCounters := Counters(0, 0, 0, 0, 0, 0, Mean(0, 0))

  /** MeanMetric.inc: one more value. */
  function Inc(m: Mean, value: int): Mean
  {
    Mean(m.sum + value, m.count + 1)
  }

  /** beforeBulk's bookkeeping for a request that is about to be sent. */
  function Submitted(c: Counters, request: BulkRequest): (d: Counters)
    ensures d.submitted - c.submitted == d.currentIngestNumDocs - c.currentIngestNumDocs == request.numberOfActions
    ensures d.totalIngestSizeInBytes == c.totalIngestSizeInBytes + request.estimatedSizeInBytes
    ensures d.succeeded == c.succeeded && d.failed == c.failed
    ensures d.currentIngest == c.currentIngest && d.totalIngest == c.totalIngest
  {
    c.(submitted := c.submitted + request.numberOfActions,
       currentIngestNumDocs := c.currentIngestNumDocs + request.numberOfActions,
       totalIngestSizeInBytes := c.totalIngestSizeInBytes + request.estimatedSizeInBytes)
  }

  /**
   * The bookkeeping of a successful afterBulk, as a reference for the listeners' loops: every
   * item counts, as a success or as a failure; the time taken goes into the mean; the documents
   * in flight are released only when no item failed.
   */
  function Reconciled(c: Counters, r: BulkResponse): (d: Counters)
    ensures d.failed == c.failed + FailedCount(r.items)
    ensures d.succeeded == c.succeeded + |r.items| - FailedCount(r.items)
    ensures d.succeeded + d.failed == c.succeeded + c.failed + |r.items|
    ensures c.failed <= d.failed <= c.failed + |r.items|
    ensures d.failed == c.failed <==> !HasFailures(r)
    ensures !HasFailures(r) ==> d.succeeded == c.succeeded + |r.items|
    ensures d.currentIngestNumDocs == if HasFailures(r) then c.currentIngestNumDocs
                                      else c.currentIngestNumDocs - |r.items|
    ensures d.submitted == c.submitted && d.currentIngest == c.currentIngest
    ensures d.totalIngestSizeInBytes == c.totalIngestSizeInBytes
    ensures d.totalIngest == Inc(c.totalIngest, r.tookInMillis)
  {
    FailedCountPositive(r.items);
    var f := FailedCount(r.items);
    c.(succeeded := c.succeeded + |r.items| - f,
       failed := c.failed + f,
       totalIngest := Inc(c.totalIngest, r.tookInMillis),
       currentIngestNumDocs := if f == 0 then c.currentIngestNumDocs - |r.items| else c.currentIngestNumDocs)
  }

  /** A response whose items all failed adds nothing to the successes. */
  lemma AllFailed(c: Counters, r: BulkResponse)
    requires forall k :: 0 <= k < |r.items| ==> r.items[k].isFailed
    ensures Reconciled(c, r).succeeded == c.succeeded
    ensures Reconciled(c, r).failed == c.failed + |r.items|
  {
    FailedCountAll(r.items);
    FailedCountPositive(r.items);
  }

  /** A call on the bulk processor. */
  datatype ProcessorCall =
    | Add(request: ActionRequest)
    | Flush                       // flush, as BulkProcessorHelper.flush or bulkProcessor.flush
    | WaitFor(millis: int)        // BulkProcessorHelper.waitFor
    | AwaitClose(millis: int)     // bulkProcessor.awaitClose
    | Close

  /** A call on the cluster client, directly or through ClientHelper. */
  datatype ClientCall =
    | DisableRefresh(index: string)
    | EnableRefresh(index: string)
    | StartBulkMode(index: string)   // ClientHelper.startBulk
    | StopBulkMode(index: string)    // ClientHelper.stopBulk
    | UpdateIndexSetting(index: string, key: string, value: string)
    | CloseClient

  /** The index a call is about, if any. */
  function Target(call: ClientCall): Option<string>
  {
    if call.CloseClient? then None else Some(call.index)
  }

  /** `f` makes, for every index, a call about that index. */
  ghost predicate Targets(f: string -> ClientCall)
  {
    forall i :: Target(f(i)) == Some(i)
  }

  /** The calls `f` makes for the indices of `order`, in that order. */
  function Each(order: seq<string>, f: string -> ClientCall): (calls: seq<ClientCall>)
    ensures |calls| == |order|
    ensures forall k :: 0 <= k < |order| ==> calls[k] == f(order[k])
    decreases |order|
  {
    if order == [] then [] else Each(order[..|order| - 1], f) + [f(order[|order| - 1])]
  }

  lemma EachStep(order: seq<string>, f: string -> ClientCall, i: string)
    ensures Each(order + [i], f) == Each(order, f) + [f(i)]
  {
    assert (order + [i])[..|order|] == order;
  }

  /** Logging one more call after a log of calls for `order` gives the log for `order + [i]`. */
  lemma LogStep(log: seq<ClientCall>, order: seq<string>, f: string -> ClientCall, i: string)
    ensures log + Each(order, f) + [f(i)] == log + Each(order + [i], f)
  {
    EachStep(order, f, i);
    var e := Each(order, f);
    assert log + e + [f(i)] == log + (e + [f(i)]);
  }

  /** `order` lists the indices of `s`, each once. */
  ghost predicate Enumerates(order: seq<string>, s: set<string>)
  {
    && (forall k :: 0 <= k < |order| ==> order[k] in s)
    && (forall i :: i in s ==> i in order)
    && (forall j, k :: 0 <= j < k < |order| ==> order[j] != order[k])
  }

  /** The only listing of no index is the empty one. */
  lemma EnumeratesNothing(order: seq<string>)
    ensures Enumerates(order, {}) <==> order == []
  {
    if order != [] {
      var none: set<string> := {};
      assert order[0] !in none;
    }
  }

  /** Listing one more index, not listed before, lists the larger set. */
  lemma EnumeratesStep(order: seq<string>, s: set<string>, x: string)
    requires Enumerates(order, s) && x !in s
    ensures Enumerates(order + [x], s + {x})
  {
    var o := order + [x];
    forall k | 0 <= k < |o| ensures o[k] in s + {x} {
      if k < |order| {
        assert o[k] == order[k];
      }
    }
    forall i | i in s + {x} ensures i in o {
      if i in s {
        var k :| 0 <= k < |order| && order[k] == i;
        assert o[k] == i;
      } else {
        assert o[|order|] == i;
      }
    }
    forall j, k | 0 <= j < k < |o| ensures o[j] != o[k] {
      if k < |order| {
        assert o[j] == order[j] && o[k] == order[k];
      } else {
        assert o[j] == order[j] && order[j] in s;
      }
    }
  }

  /**
   * Enumerating every index once, a call about each index is made exactly once, and no call
   * is made about an index outside the set.
   */
  lemma {:induction false} EachOnce(order: seq<string>, s: set<string>, f: string -> ClientCall, i: string)
    requires Targets(f) && Enumerates(order, s)
    ensures multiset(Each(order, f))[f(i)] == if i in s then 1 else 0
    decreases |order|
  {
    if order == [] {
    } else {
      var last := order[|order| - 1];
      var init := order[..|order| - 1];
      var rest := s - {last};
      EnumeratesInit(order, s);
      EachOnce(init, rest, f, i);
      assert Each(order, f) == Each(init, f) + [f(last)];
      assert Target(f(i)) == Some(i) && Target(f(last)) == Some(last);
    }
  }

  /** Without its last index, a listing lists the rest of the set. */
  lemma EnumeratesInit(order: seq<string>, s: set<string>)
    requires Enumerates(order, s) && order != []
    ensures Enumerates(order[..|order| - 1], s - {order[|order| - 1]})
  {
    var init := order[..|order| - 1];
    var rest := s - {order[|order| - 1]};
    forall k | 0 <= k < |init| ensures init[k] in rest {
      assert init[k] == order[k] && order[k] != order[|order| - 1];
    }
    forall x | x in rest ensures x in init {
      assert x in order;
      var k :| 0 <= k < |order| && order[k] == x;
      assert k < |order| - 1 && init[k] == x;
    }
  }

  /** A listing of a set names as many indices as the set holds. */
  lemma {:induction false} EnumeratesLength(order: seq<string>, s: set<string>)
    requires Enumerates(order, s)
    ensures |order| == |s|
    decreases |order|
  {
    if order != [] {
      var last := order[|order| - 1];
      EnumeratesInit(order, s);
      EnumeratesLength(order[..|order| - 1], s - {last});
    }
  }
}
