# elasticsearch-helper ingest clients, modelled in Dafny

This project models the client-side ingestion layer of elasticsearch-helper. Three ingest
clients (`BulkNodeClient`, `NodeClient`, `HttpBulkNodeClient`) hand index, delete and update
actions to a bulk processor. The processor's listener then reconciles each bulk response into
ingest counters. A transport failure latches the client closed. Indices can be put into "bulk
mode" and are taken out of it again at shutdown. Beside the clients the project models the
wire codec of the per-shard ingest request (`IngestIndexShardRequest`), the `State` counter and
bulk-index object, and the `ConfigHelper` settings and mappings table.

Layout, one module per source file or component:

- `stream.dfy` (`Stream`): byte streams and Elasticsearch's VInt. A VInt is written in 7-bit
  groups, least significant group first, with the high bit set when another byte follows. For
  non-negative values this is unsigned LEB128 (DWARF version 4, section 7.6). A negative Java
  int is written through its unsigned 32-bit reading. `readVInt` reads at most five bytes.
- `shard_request.dfy` (`ShardRequest`): `writeTo`/`readFrom` of `IngestIndexShardRequest`. The
  encoding is a pure function `EncodeShardRequest`, and the decoding a pure function
  `DecodeShardRequest`. The class methods are proved against these functions. The item codec is
  a parameter, assumed to round-trip (`RoundTrips`).
- `state.dfy` (`ClientState`): `State`, which holds the counters and the bulk-mode index set.
- `ingest_metric.dfy` (`Metric`): `IngestMetric`, the HTTP client's counters and its map from
  index name to the saved start/stop refresh intervals. Its source is not part of this model.
  Its members are the ones the HTTP client calls, with the meaning those calls give them.
- `bulk.dfy` (`Bulk`): bulk requests and responses, the counter record, and the reference
  bookkeeping functions `Submitted` and `Reconciled`. It also holds the call logs that record
  what a client asks of its bulk processor and of the cluster.
- `bulk_node_client.dfy`, `node_client.dfy`, `http_bulk_node_client.dfy`: the three clients,
  as classes with `closed`, `throwable`, the in-flight counter and the call logs.
- `config_helper.dfy` (`Config`): `ConfigHelper`, with settings as `map<string, string>`.
- `text.dfy` (`Text`): the decimal text of a long, as in `startRefreshIntervalMillis + "ms"`.
- `scenarios.dfy` (`Scenarios`): runs of fresh clients. These cover a stream of exchanges,
  partial failure, a transport failure, and shutdown with two indices in bulk mode.

Collaborators the source only calls are modelled as follows:

- Bulk processor: every call is appended to `processorCalls`. The exception that `add` may
  throw is a parameter `failure: Option<Throwable>`.
- Cluster client and `ClientHelper`: every call is appended to `clientCalls`. These calls are
  assumed to return normally.
- `waitForCluster` in `newClient`: a boolean constructor parameter `clusterReady`.
- `awaitClose` in the HTTP `waitForResponses`: the number of times it answers "not yet"
  (`refusals`).

Where the code and the intended design disagree, the model follows the code:

- `readFrom` keeps only the present items. A round trip therefore drops the absent slots
  (`ShardRequest.AbsentSlotIsLost`). The design asks for the positional list back.
- `NodeClient` closes itself on any failed item. The other two clients stay open.
- The documents-in-flight gauge (`currentIngestNumDocs`) is released only by a response
  without failures.
- `shutdown` does not set `closed` in any of the three clients.

## Model

| member | source | states |
|---|---|---|
| `Stream.StreamOutput.WriteVInt` | src/main/java/org/xbib/elasticsearch/action/ingest/index/IngestIndexShardRequest.java:49-50 | writeVInt appends exactly the LEB128 groups of the int's unsigned 32-bit reading |
| `Stream.StreamInput.ReadVInt` | src/main/java/org/xbib/elasticsearch/action/ingest/index/IngestIndexShardRequest.java:64-65 | readVInt yields what `DecodeVInt` reads at the current position and moves past it, or fails at end of stream |
| `Stream.StreamInput.ReadBoolean` | src/main/java/org/xbib/elasticsearch/action/ingest/index/IngestIndexShardRequest.java:68 | readBoolean reads one byte; any non-zero byte is true |
| `Stream.VIntRoundTrip` | src/main/java/org/xbib/elasticsearch/action/ingest/index/IngestIndexShardRequest.java:64-65 | wherever the bytes of writeVInt(i) sit, readVInt reads back exactly i and stops right after them; there are at most five bytes |
| `ShardRequest.IngestIndexShardRequest.constructor` | src/main/java/org/xbib/elasticsearch/action/ingest/index/IngestIndexShardRequest.java:22-34 | `shardId()` and `items()` return exactly the constructor arguments, a null list included |
| `ShardRequest.IngestIndexShardRequest.Empty` | src/main/java/org/xbib/elasticsearch/action/ingest/index/IngestIndexShardRequest.java:19-20 | the no-argument constructor, the target of readFrom, leaves the index and the item list null and the shard id 0 |
| `ShardRequest.IngestIndexShardRequest.WriteTo` | src/main/java/org/xbib/elasticsearch/action/ingest/index/IngestIndexShardRequest.java:47-59 | appends VInt(shardId), VInt(list size including absent slots), then per slot a presence flag and the item when present; with a null list only the shard id is written and a NullPointerException is thrown |
| `ShardRequest.WriteSlots` | src/main/java/org/xbib/elasticsearch/action/ingest/index/IngestIndexShardRequest.java:51-58 | the slot loop appends the slots' encodings in list order |
| `ShardRequest.ReadSlots` | src/main/java/org/xbib/elasticsearch/action/ingest/index/IngestIndexShardRequest.java:67-71 | the counted read loop yields exactly what `DecodeSlots` reads and ends where it ends; where the stream or the item decoder fails, it reports the failure and the items appended before it (`SlotsRead`) |
| `ShardRequest.SlotsReadComplete` | src/main/java/org/xbib/elasticsearch/action/ingest/index/IngestIndexShardRequest.java:66-71 | when every slot reads, the items the loop appended to the fresh list are exactly the list the read returns |
| `ShardRequest.IngestIndexShardRequest.ReadFrom` | src/main/java/org/xbib/elasticsearch/action/ingest/index/IngestIndexShardRequest.java:61-72 | on success, shardId and a fresh item list are what `DecodeShardRequest` reads, so no earlier item survives, and a negative count reads no slot; on failure the shard id is kept once read and the fresh list holds the items appended before the failing slot; before either is read the fields are untouched |
| `ShardRequest.ShardRequestRoundTrip` | src/main/java/org/xbib/elasticsearch/action/ingest/index/IngestIndexShardRequest.java:47-72 | wherever an encoding sits, decoding returns the same shard id and exactly the present items in their original order, and stops at the encoding's end |
| `ShardRequest.SlotsRoundTrip` | src/main/java/org/xbib/elasticsearch/action/ingest/index/IngestIndexShardRequest.java:51-71 | reading as many slots as were written returns the present items in order and consumes exactly the slot bytes |
| `ShardRequest.EncodedCountIncludesAbsentSlots` | src/main/java/org/xbib/elasticsearch/action/ingest/index/IngestIndexShardRequest.java:50 | the second VInt of the encoding reads back as the full list size, absent slots included |
| `ShardRequest.CompactLength` | src/main/java/org/xbib/elasticsearch/action/ingest/index/IngestIndexShardRequest.java:65-71 | the decoded list is never longer than the encoded count, and is as long exactly when no slot was absent |
| `ShardRequest.CompactAppend` | src/main/java/org/xbib/elasticsearch/action/ingest/index/IngestIndexShardRequest.java:67-71 | dropping absent slots distributes over concatenation, so the present items keep their relative order |
| `ShardRequest.CompactMembers` | src/main/java/org/xbib/elasticsearch/action/ingest/index/IngestIndexShardRequest.java:67-71 | a value is in the decoded list exactly when it is a present item of the original list |
| `ShardRequest.AbsentSlotIsLost` | src/main/java/org/xbib/elasticsearch/action/ingest/index/IngestIndexShardRequest.java:65-71 | an encoded `[absent, x]` decodes to `[x]`: the positional list is not restored |
| `ClientState.State.constructor` | src/main/java/org/xbib/elasticsearch/support/client/State.java:10-26 | a new State has no index in bulk mode and every counter at zero |
| `ClientState.State.StartBulk` | src/main/java/org/xbib/elasticsearch/support/client/State.java:56-59 | adds the index to the bulk set; counters unchanged |
| `ClientState.State.StopBulk` | src/main/java/org/xbib/elasticsearch/support/client/State.java:65-68 | removes the index from the bulk set; counters unchanged |
| `ClientState.Apply` | src/main/java/org/xbib/elasticsearch/support/client/State.java:56-68 | after start i is in bulk mode and after stop it is not; no other index changes; starting a present index or stopping an absent one changes nothing |
| `ClientState.ReplayFromEmpty` | src/main/java/org/xbib/elasticsearch/support/client/State.java:70-72 | from a new State, `indices()` is exactly the indices started and not stopped since |
| `Metric.IngestMetric.SetupBulk` | src/main/java/org/xbib/elasticsearch/helper/client/HttpBulkNodeClient.java:365 | records the index's start and stop intervals; counters unchanged |
| `Metric.IngestMetric.RemoveBulk` | src/main/java/org/xbib/elasticsearch/helper/client/HttpBulkNodeClient.java:378 | forgets the index's intervals; counters unchanged |
| `Bulk.Submitted` | src/main/java/org/xbib/elasticsearch/support/client/node/BulkNodeClient.java:117-120 | beforeBulk's bookkeeping: n more submitted and in-flight documents and b more bytes; nothing else changes |
| `Bulk.Reconciled` | src/main/java/org/xbib/elasticsearch/support/client/node/BulkNodeClient.java:133-157 | afterBulk's bookkeeping: with f the number of failed items, failed rises by f and succeeded by the item count minus f; failed rises exactly when some item failed, and without failures every item counts as a success; in-flight documents are released only without failures |
| `Bulk.FailedCountPositive` | src/main/java/org/xbib/elasticsearch/support/client/node/NodeClient.java:133 | the loop's failure count is positive exactly when `hasFailures()` holds |
| `Bulk.FailedCountAll` | src/main/java/org/xbib/elasticsearch/support/client/node/BulkNodeClient.java:137-143 | the failure count equals the item count exactly when every item failed |
| `Bulk.FailedCountSingle` | src/main/java/org/xbib/elasticsearch/support/client/node/BulkNodeClient.java:137-143 | a response with exactly one failed item counts one failure |
| `Bulk.AllFailed` | src/main/java/org/xbib/elasticsearch/support/client/node/BulkNodeClient.java:133-143 | when every item failed, successes are unchanged and failures rise by the item count |
| `Bulk.EachOnce` | src/main/java/org/xbib/elasticsearch/support/client/node/BulkNodeClient.java:384-386 | walking a snapshot of the bulk set makes a call about each index in it exactly once, and about no other index |
| `Bulk.EnumeratesLength` | src/main/java/org/xbib/elasticsearch/support/client/node/BulkNodeClient.java:384 | a copy of the bulk set lists as many indices as the set holds |
| `BulkNode.BulkNodeClient.constructor` | src/main/java/org/xbib/elasticsearch/support/client/node/BulkNodeClient.java:110-184 | newClient: fresh State, nothing in flight, closed exactly when waiting for the cluster failed |
| `BulkNode.BulkNodeClient.BeforeBulk` | src/main/java/org/xbib/elasticsearch/support/client/node/BulkNodeClient.java:115-128 | one more concurrent request; counters become `Submitted(old counters, request)` |
| `BulkNode.BulkNodeClient.AfterBulk` | src/main/java/org/xbib/elasticsearch/support/client/node/BulkNodeClient.java:131-158 | one concurrent request less; counters become `Reconciled(old counters, response)`; closed and throwable unchanged even with failed items |
| `BulkNode.BulkNodeClient.AfterBulkFailure` | src/main/java/org/xbib/elasticsearch/support/client/node/BulkNodeClient.java:161-166 | one concurrent request less; the cause is stored and the client is closed |
| `BulkNode.BulkNodeClient.Submit` | src/main/java/org/xbib/elasticsearch/support/client/node/BulkNodeClient.java:217-236 | closed: throws "client is closed" and changes nothing; open: adds the action, an add exception is stored and closes the client, currentIngest ends as it was |
| `BulkNode.BulkNodeClient.Index` | src/main/java/org/xbib/elasticsearch/support/client/node/BulkNodeClient.java:217-236 | as Submit, for an index request with create=false built from the arguments |
| `BulkNode.BulkNodeClient.BulkIndex` | src/main/java/org/xbib/elasticsearch/support/client/node/BulkNodeClient.java:239-258 | as Submit, for the given index request |
| `BulkNode.BulkNodeClient.Delete` | src/main/java/org/xbib/elasticsearch/support/client/node/BulkNodeClient.java:261-280 | as Submit, for a delete request built from the arguments |
| `BulkNode.BulkNodeClient.BulkDelete` | src/main/java/org/xbib/elasticsearch/support/client/node/BulkNodeClient.java:283-302 | as Submit, for the given delete request |
| `BulkNode.BulkNodeClient.FlushIngest` | src/main/java/org/xbib/elasticsearch/support/client/node/BulkNodeClient.java:304-311 | throws when closed and changes nothing; otherwise flushes the processor |
| `BulkNode.BulkNodeClient.WaitForResponses` | src/main/java/org/xbib/elasticsearch/support/client/node/BulkNodeClient.java:314-320 | throws when closed and changes nothing; otherwise waits on the processor |
| `BulkNode.BulkNodeClient.StartBulk` | src/main/java/org/xbib/elasticsearch/support/client/node/BulkNodeClient.java:323-332 | registers the index and disables its refresh only when it is not yet in bulk mode |
| `BulkNode.BulkNodeClient.StopBulk` | src/main/java/org/xbib/elasticsearch/support/client/node/BulkNodeClient.java:335-344 | removes the index and enables its refresh only when it is in bulk mode |
| `BulkNode.BulkNodeClient.Shutdown` | src/main/java/org/xbib/elasticsearch/support/client/node/BulkNodeClient.java:376-394 | closes the processor, stops bulk mode for each index of a snapshot once, empties the set, closes the cluster client; the latch is untouched |
| `BulkNode.BulkNodeClient.StopAll` | src/main/java/org/xbib/elasticsearch/support/client/node/BulkNodeClient.java:382-387 | the snapshot loop: one enable-refresh call per index of the old set, and the set ends empty |
| `BulkNode.ShutdownTwice` | src/main/java/org/xbib/elasticsearch/support/client/node/BulkNodeClient.java:376-394 | a second shutdown finds no index in bulk mode and enables no refresh |
| `Node.NodeClient.constructor` | src/main/java/org/xbib/elasticsearch/support/client/node/NodeClient.java:110-178 | newClient: fresh State, no outstanding request, closed exactly when waiting for the cluster failed |
| `Node.NodeClient.BeforeBulk` | src/main/java/org/xbib/elasticsearch/support/client/node/NodeClient.java:115-125 | one more outstanding request; counters become `Submitted(old counters, request)` |
| `Node.NodeClient.AfterBulk` | src/main/java/org/xbib/elasticsearch/support/client/node/NodeClient.java:128-152 | one outstanding request less; counters become `Reconciled(old, response)`; any failed item closes the client and throwable is unchanged |
| `Node.NodeClient.AfterBulkFailure` | src/main/java/org/xbib/elasticsearch/support/client/node/NodeClient.java:155-160 | one outstanding request less; the cause is stored and the client is closed |
| `Node.NodeClient.Submit` | src/main/java/org/xbib/elasticsearch/support/client/node/NodeClient.java:196-211 | closed: throws and changes nothing; open: adds the action, an add exception is stored and closes the client, currentIngest balanced |
| `Node.NodeClient.Index` | src/main/java/org/xbib/elasticsearch/support/client/node/NodeClient.java:196-211 | as Submit, for the given index request |
| `Node.NodeClient.IndexSource` | src/main/java/org/xbib/elasticsearch/support/client/node/NodeClient.java:191-193 | delegates with a built index request, so it too throws when closed |
| `Node.NodeClient.Delete` | src/main/java/org/xbib/elasticsearch/support/client/node/NodeClient.java:219-234 | as Submit, for the given delete request |
| `Node.NodeClient.DeleteById` | src/main/java/org/xbib/elasticsearch/support/client/node/NodeClient.java:214-216 | delegates with a built delete request, so it too throws when closed |
| `Node.NodeClient.Flush` | src/main/java/org/xbib/elasticsearch/support/client/node/NodeClient.java:237-245 | throws when closed; otherwise flushes and waits sixty seconds |
| `Node.NodeClient.StartBulk` | src/main/java/org/xbib/elasticsearch/support/client/node/NodeClient.java:248-257 | registers the index and tells the cluster only when it is not yet in bulk mode |
| `Node.NodeClient.StopBulk` | src/main/java/org/xbib/elasticsearch/support/client/node/NodeClient.java:260-269 | removes the index and tells the cluster only when it is in bulk mode |
| `Node.NodeClient.Shutdown` | src/main/java/org/xbib/elasticsearch/support/client/node/NodeClient.java:295-313 | stops bulk mode once for each index of a snapshot, leaving the set empty; closes processor and client |
| `Node.NodeClient.StopAll` | src/main/java/org/xbib/elasticsearch/support/client/node/NodeClient.java:301-306 | the snapshot loop: one stop-bulk call per index of the old set, and the set ends empty |
| `HttpBulkNode.HttpBulkNodeClient.constructor` | src/main/java/org/xbib/elasticsearch/helper/client/HttpBulkNodeClient.java:111-192 | init: the metric, when there is one, is started; the client is open with no cause |
| `HttpBulkNode.HttpBulkNodeClient.BeforeBulk` | src/main/java/org/xbib/elasticsearch/helper/client/HttpBulkNodeClient.java:119-134 | with a metric, currentIngest rises by one and counters become `Submitted(old, request)`; without one, nothing changes |
| `HttpBulkNode.HttpBulkNodeClient.AfterBulk` | src/main/java/org/xbib/elasticsearch/helper/client/HttpBulkNodeClient.java:137-170 | with a metric, currentIngest falls by one and counters become `Reconciled(old, response)`; the client stays open |
| `HttpBulkNode.HttpBulkNodeClient.AfterBulkFailure` | src/main/java/org/xbib/elasticsearch/helper/client/HttpBulkNodeClient.java:173-180 | with a metric, currentIngest falls by one; the cause is stored and the client is closed, with or without a metric |
| `HttpBulkNode.HttpBulkNodeClient.Submit` | src/main/java/org/xbib/elasticsearch/helper/client/HttpBulkNodeClient.java:215-234 | closed: throws and changes nothing; open: adds the action, an add exception latches closed; the metric, if any, ends as it was |
| `HttpBulkNode.HttpBulkNodeClient.Index` | src/main/java/org/xbib/elasticsearch/helper/client/HttpBulkNodeClient.java:215-234 | as Submit, for an index request with create=false |
| `HttpBulkNode.HttpBulkNodeClient.BulkIndex` | src/main/java/org/xbib/elasticsearch/helper/client/HttpBulkNodeClient.java:237-256 | as Submit, for the given index request |
| `HttpBulkNode.HttpBulkNodeClient.Delete` | src/main/java/org/xbib/elasticsearch/helper/client/HttpBulkNodeClient.java:259-278 | as Submit, for a built delete request |
| `HttpBulkNode.HttpBulkNodeClient.BulkDelete` | src/main/java/org/xbib/elasticsearch/helper/client/HttpBulkNodeClient.java:281-300 | as Submit, for the given delete request |
| `HttpBulkNode.HttpBulkNodeClient.SubmitUnguarded` | src/main/java/org/xbib/elasticsearch/helper/client/HttpBulkNodeClient.java:303-336 | update's body as written: closed throws; without a metric a NullPointerException is stored, latches closed and is thrown, and nothing is added |
| `HttpBulkNode.HttpBulkNodeClient.UpdateAsWritten` | src/main/java/org/xbib/elasticsearch/helper/client/HttpBulkNodeClient.java:303-318 | update as written, for an upserting update request |
| `HttpBulkNode.HttpBulkNodeClient.BulkUpdateAsWritten` | src/main/java/org/xbib/elasticsearch/helper/client/HttpBulkNodeClient.java:321-336 | bulkUpdate as written, for the given update request |
| `HttpBulkNode.HttpBulkNodeClient.Update` | src/main/java/org/xbib/elasticsearch/helper/client/HttpBulkNodeClient.java:303-318 | update with the metric guarded like the other ingest calls |
| `HttpBulkNode.HttpBulkNodeClient.BulkUpdate` | src/main/java/org/xbib/elasticsearch/helper/client/HttpBulkNodeClient.java:321-336 | bulkUpdate with the metric guarded |
| `HttpBulkNode.UpdateWithoutMetric` | src/main/java/org/xbib/elasticsearch/helper/client/HttpBulkNodeClient.java:303-318 | without a metric, update as written throws, closes the client and adds nothing, while the guarded update adds the request |
| `HttpBulkNode.HttpBulkNodeClient.FlushIngest` | src/main/java/org/xbib/elasticsearch/helper/client/HttpBulkNodeClient.java:339-346 | throws when closed and changes nothing; otherwise flushes |
| `HttpBulkNode.HttpBulkNodeClient.WaitForResponses` | src/main/java/org/xbib/elasticsearch/helper/client/HttpBulkNodeClient.java:349-357 | throws when closed; otherwise asks awaitClose until it answers yes, once per refusal plus once |
| `HttpBulkNode.HttpBulkNodeClient.StartBulk` | src/main/java/org/xbib/elasticsearch/helper/client/HttpBulkNodeClient.java:360-369 | with a metric, saves (start, stop) and sets the start interval only when the index is not in bulk mode; without a metric, a no-op |
| `HttpBulkNode.HttpBulkNodeClient.StopBulk` | src/main/java/org/xbib/elasticsearch/helper/client/HttpBulkNodeClient.java:372-381 | with a metric, sets the saved stop interval and removes the entry only when present; without a metric, a no-op |
| `HttpBulkNode.HttpBulkNodeClient.Shutdown` | src/main/java/org/xbib/elasticsearch/helper/client/HttpBulkNodeClient.java:413-428 | closes the processor and restores each bulk index of a snapshot once, leaving the map empty; the latch is untouched |
| `HttpBulkNode.HttpBulkNodeClient.RestoreAll` | src/main/java/org/xbib/elasticsearch/helper/client/HttpBulkNodeClient.java:419-424 | the snapshot loop: one restore per index of the old map, with its saved stop interval |
| `HttpBulkNode.RestoresEachOnce` | src/main/java/org/xbib/elasticsearch/helper/client/HttpBulkNodeClient.java:419-424 | over a snapshot, each bulk index is restored exactly once and no other index is touched |
| `HttpBulkNode.RestoredValue` | src/main/java/org/xbib/elasticsearch/helper/client/HttpBulkNodeClient.java:377 | the restored setting is the saved stop interval's decimal text followed by "ms", and reads back as that number |
| `Text.DecimalRoundTrip` | src/main/java/org/xbib/elasticsearch/helper/client/HttpBulkNodeClient.java:366 | the decimal text of any long reads back as that long |
| `Text.MillisInjective` | src/main/java/org/xbib/elasticsearch/helper/client/HttpBulkNodeClient.java:366 | distinct intervals give distinct "<n>ms" settings |
| `Config.ConfigHelper.constructor` | src/main/java/org/xbib/elasticsearch/support/client/ConfigHelper.java:20-24 | no builder, no explicit settings, no mappings |
| `Config.ConfigHelper.Reset` | src/main/java/org/xbib/elasticsearch/support/client/ConfigHelper.java:26-29 | a new empty builder; explicit settings and mappings untouched |
| `Config.ConfigHelper.SetSettings` | src/main/java/org/xbib/elasticsearch/support/client/ConfigHelper.java:31-34 | replaces the explicit settings; nothing else changes |
| `Config.ConfigHelper.SetString` | src/main/java/org/xbib/elasticsearch/support/client/ConfigHelper.java:36-42 | creates an empty builder if there is none, then puts the key |
| `Config.ConfigHelper.SetBoolean` | src/main/java/org/xbib/elasticsearch/support/client/ConfigHelper.java:44-50 | as SetString, with the boolean's text; a null Boolean leaves a builder (created if missing) unchanged and throws a NullPointerException |
| `Config.ConfigHelper.SetInteger` | src/main/java/org/xbib/elasticsearch/support/client/ConfigHelper.java:52-58 | as SetString, with the int's decimal text; a null Integer leaves a builder (created if missing) unchanged and throws a NullPointerException |
| `Config.ConfigHelper.SettingsBuilder` | src/main/java/org/xbib/elasticsearch/support/client/ConfigHelper.java:65-67 | the builder, or a fresh empty one that is not stored |
| `Config.ConfigHelper.Settings` | src/main/java/org/xbib/elasticsearch/support/client/ConfigHelper.java:69-77 | explicit settings win over the builder; otherwise the builder's contents, creating an empty builder if none |
| `Config.ConfigHelper.MappingString` | src/main/java/org/xbib/elasticsearch/support/client/ConfigHelper.java:79-82 | stores the mapping under the type, replacing an earlier one; a null type or mapping is stored like any other |
| `Config.ConfigHelper.MappingStream` | src/main/java/org/xbib/elasticsearch/support/client/ConfigHelper.java:84-92 | a null type is a no-op; otherwise the content is stored under the type |
| `Config.ConfigHelper.Mappings` | src/main/java/org/xbib/elasticsearch/support/client/ConfigHelper.java:117-119 | null exactly when no mapping is stored, otherwise the stored table |
| `Config.MappingOverwrites` | src/main/java/org/xbib/elasticsearch/support/client/ConfigHelper.java:79-82 | two mappings for a type leave the table as the second alone would: every other type keeps its mapping and no other type appears |
| `Config.ExplicitSettingsWin` | src/main/java/org/xbib/elasticsearch/support/client/ConfigHelper.java:69-72 | explicit settings are returned whatever the builder was given before or after |
| `Config.NothingConfigured` | src/main/java/org/xbib/elasticsearch/support/client/ConfigHelper.java:73-76 | with nothing configured, settings() is empty and an empty builder is kept |
| `Scenarios.IngestAllBulkNode` | src/main/java/org/xbib/elasticsearch/support/client/node/BulkNodeClient.java:115-158 | over any stream of exchanges: submitted = all actions, succeeded + failed = all items, only clean responses release documents, the client stays open and records no cause; with every action answered cleanly, succeeded = submitted |
| `Scenarios.IngestAllNode` | src/main/java/org/xbib/elasticsearch/support/client/node/NodeClient.java:115-152 | the same counters, and the client ends closed exactly when some response had a failed item, with no cause recorded |
| `Scenarios.AllAnsweredTotals` | src/main/java/org/xbib/elasticsearch/support/client/node/BulkNodeClient.java:152-157 | when every response answers every action and none failed, nothing fails and every document is released |
| `Scenarios.FailuresAtMostItems` | src/main/java/org/xbib/elasticsearch/support/client/node/BulkNodeClient.java:137-143 | failures never outnumber the items answered |
| `Scenarios.PartialFailure` | src/main/java/org/xbib/elasticsearch/support/client/node/NodeClient.java:128-144 | one failed item of m gives m-1 successes and 1 failure in all clients; the node clients differ: BulkNodeClient and HTTP stay open and accept the next action, NodeClient refuses it |
| `Scenarios.TransportFailure` | src/main/java/org/xbib/elasticsearch/support/client/node/BulkNodeClient.java:161-166 | after a transport failure the cause is kept, hasThrowable holds, and the next action is refused without reaching the processor |
| `Scenarios.TwoIndicesRestored` | src/main/java/org/xbib/elasticsearch/helper/client/HttpBulkNodeClient.java:360-428 | two indices with their own intervals are each restored to their own stop interval exactly once; a second shutdown restores nothing |

## Left out

- Batching engine: `BulkProcessor` and `HttpBulkProcessor` are library code that is not part of this model. Flush triggers by count, size or interval, the concurrent-request semaphore and the timer are not modelled. `add`, `flush`, `waitFor`, `awaitClose` and `close` are logged calls; `add` may throw.
- Inherited fields: `super.writeTo`/`super.readFrom` of `ShardReplicationOperationRequest` are not part of this model. The codec is stated from the position where they end.
- Item codec: `IngestIndexItemRequest.writeTo`/`readBulkItem` are not part of this model. They are a parameter that is assumed to round-trip.
- `beforeLocalFork`: it copies unsafe byte buffers before a thread fork, which has no counterpart here.
- Admin operations: `newIndex`, `deleteIndex`, `putMapping`, `deleteMapping`, `refresh`, `flush(index)`, `flushIndex`, `updateReplicaLevel`, `waitForCluster` and `waitForRecovery` are thin calls into `ClientHelper`, which is not part of this model. `waitForCluster` in `newClient` is the constructor's `clusterReady`. `ConfigHelper.putMapping`/`deleteMappings`/`deleteMapping` are left out for the same reason.
- Client construction: the option setters, `newClient(URI)` and the HTTP `init(Map, …)`/`init(Settings, …)` overloads only build collaborators. The `state == null` branches of `BulkNodeClient` are unreachable after `newClient`, which is where the model starts.
- Collaborator failures: cluster-client calls are assumed to return normally. The exceptions that `shutdown` catches and logs are therefore not modelled.
- Concurrency: the synchronized set, `AtomicLong` and the `synchronized shutdown` are modelled single-threaded.
- Logging is left out.
- Counters: `CounterMetric` and `AtomicLong` are Java longs, modelled as unbounded integers (no 64-bit wrap-around).
- Mean: `MeanMetric`'s floating-point mean is kept as an integer sum and a count.
- `ConfigHelper.setting(InputStream)`: it parses JSON, which is left out. `mapping(type, InputStream)` takes the stream's text as a parameter.
- `BasicResponse`: a JSON wrapper over search/get responses, not part of the ingest path.
- The integration tests need a live cluster. Their property, that submitted equals succeeded and no throwable is recorded, is what `Scenarios.IngestAllBulkNode` states for clean responses.
- `Config.ConfigHelper.SetString`: keys and string values are never null in the model, nor are the keys of `Config.ConfigHelper.SetBoolean` and `Config.ConfigHelper.SetInteger`. The builder's map would store a null like any other value.
- `hasThrowable`: each client's `HasThrowable` is a plain predicate on the recorded cause and has no contract of its own. `Scenarios.TransportFailure` and `Scenarios.PartialFailure` state what it returns after a transport failure and after a partial failure.
- `BulkNode.BulkNodeClient.Shutdown`: the walk order of the snapshot is a ghost result constrained only to list each index once, because a copy of a hash set has no order the code fixes. The same holds for `Node.NodeClient.Shutdown` and `HttpBulkNode.HttpBulkNodeClient.Shutdown`.

## Findings

| source | as written | input that shows it | evidently intended | confidence | as-written member | corrected member |
|---|---|---|---|---|---|---|
| src/main/java/org/xbib/elasticsearch/helper/client/HttpBulkNodeClient.java:303-336 | `update` and `bulkUpdate` call `metric.getCurrentIngest()` without the null check that every other use of the metric has | a client initialised with a null metric, then any `update`: the NullPointerException is caught, latches the client closed, and the `finally` block throws it again (`HttpBulkNode.UpdateWithoutMetric`) | guard the metric as `index`/`delete` do, so the update is added and the client stays open | medium; not executed | `HttpBulkNode.HttpBulkNodeClient.UpdateAsWritten` | `HttpBulkNode.HttpBulkNodeClient.Update` |
