/**
 * IngestMetric, the HTTP client's counterpart of State: the same ingest counters, and for each
 * index in bulk mode the refresh intervals (in milliseconds) to apply when bulk mode starts and
 * when it stops. Its members are those the HTTP client calls.
 */
module Metric {
  import opened Common
  import opened Bulk

  datatype Intervals = Intervals(start: int, stop: int)

  class IngestMetric {
    var started: bool
    var counters: Counters
    var bulk: map<string, Intervals>

    constructor ()
      ensures !started && counters == NoCounters && bulk == map[]
    {
      started := false;
      counters := NoCounters;
      bulk := map[];
    }

    method Start()
      modifies this
      ensures started && counters == old(counters) && bulk == old(bulk)
    {
      started := true;
    }

    /** Records the two intervals of an index entering bulk mode. */
    method SetupBulk(index: string, start: int, stop: int)
      modifies this
      ensures bulk == old(bulk)[index := Intervals(start, stop)]
      ensures started == old(started) && counters == old(counters)
    {
      bulk := bulk[index := Intervals(start, stop)];
    }

    /** Forgets an index leaving bulk mode. */
    method RemoveBulk(index: string)
      modifies this
      ensures bulk == old(bulk) - {index}
      ensures started == old(started) && counters == old(counters)
    {
      bulk := bulk - {index};
    }

    predicate IsBulk(index: string)
      reads this
    {
      index in bulk
    }

    function Indices(): set<string>
      reads this
    {
      bulk.Keys
    }

    /** getStopBulkRefreshIntervals().get(index): null for an index not in bulk mode. */
    function StopInterval(index: string): Option<int>
      reads this
    {
      if index in bulk then Some(bulk[index].stop) else None
    }
  }
}
