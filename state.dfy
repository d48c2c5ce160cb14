/**
 * State: the ingest counters of a node client and the set of index names currently in bulk
 * mode, which startBulk and stopBulk change in place.
 */
module ClientState {
  import opened Bulk

  /** A change to the bulk-mode set. */
  datatype BulkModeChange = Start(index: string) | Stop(index: string)

  /** The bulk-mode set after one change: a set add or a set remove. */
  function Apply(s: set<string>, op: BulkModeChange): (r: set<string>)
    ensures op.index in r <==> op.Start?
    ensures forall j :: j != op.index ==> (j in r <==> j in s)
    ensures (op.index in s) == op.Start? ==> r == s
  {
    match op
    case Start(i) => s + {i}
    case Stop(i) => s - {i}
  }

  /** The bulk-mode set after a series of changes, applied in order. */
  function Replay(s: set<string>, ops: seq<BulkModeChange>): set<string>
    decreases |ops|
  {
    if ops == [] then s else Apply(Replay(s, ops[..|ops| - 1]), ops[|ops| - 1])
  }

  /** Some change starts `i`, and no later change stops it. */
  ghost predicate StartedNotStopped(ops: seq<BulkModeChange>, i: string)
  {
    exists k :: 0 <= k < |ops| && ops[k] == Start(i) && forall j :: k < j < |ops| ==> ops[j] != Stop(i)
  }

  /**
   * From a new State, the indices in bulk mode after any series of startBulk and stopBulk calls
   * are exactly those started and not stopped since.
   */
  lemma {:induction false} ReplayFromEmpty(ops: seq<BulkModeChange>, i: string)
    ensures i in Replay({}, ops) <==> StartedNotStopped(ops, i)
    decreases |ops|
  {
    if ops != [] {
      var n := |ops| - 1;
      var init := ops[..n];
      ReplayFromEmpty(init, i);
      if ops[n] == Start(i) {
        assert ops[n] == Start(i);
      } else if ops[n] == Stop(i) {
        forall k | 0 <= k < |ops| && ops[k] == Start(i)
          ensures exists j :: k < j < |ops| && ops[j] == Stop(i)
        {
          assert k < n < |ops| && ops[n] == Stop(i);
        }
      } else {
        assert ops[n].index != i;
        if StartedNotStopped(init, i) {
          var k :| 0 <= k < |init| && init[k] == Start(i) && forall j :: k < j < |init| ==> init[j] != Stop(i);
          assert ops[k] == Start(i) && forall j :: k < j < |ops| ==> ops[j] != Stop(i);
        }
        if StartedNotStopped(ops, i) {
          var k :| 0 <= k < |ops| && ops[k] == Start(i) && forall j :: k < j < |ops| ==> ops[j] != Stop(i);
          assert k < n;
          assert init[k] == Start(i) && forall j :: k < j < |init| ==> init[j] != Stop(i);
        }
      }
    }
  }

  class State {
    var indexNames: set<string>
    var counters: Counters

    constructor ()
      ensures indexNames == {} && counters == NoCounters
    {
      indexNames := {};
      counters := NoCounters;
    }

    /** Adds the index to the bulk-mode set; the counters stay as they are. */
    method StartBulk(indexName: string)
      modifies this
      ensures indexNames == Apply(old(indexNames), Start(indexName))
      ensures counters == old(counters)
    {
      indexNames := indexNames + {indexName};
    }

    /** Removes the index from the bulk-mode set; the counters stay as they are. */
    method StopBulk(indexName: string)
      modifies this
      ensures indexNames == Apply(old(indexNames), Stop(indexName))
      ensures counters == old(counters)
    {
      indexNames := indexNames - {indexName};
    }

    predicate IsBulk(indexName: string)
      reads this
    {
      indexName in indexNames
    }

    function Indices(): set<string>
      reads this
    {
      indexNames
    }
  }
}
