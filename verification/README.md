# HyperbyteDB, verified

A Dafny model of the parts of HyperbyteDB that keep its promises of durability
and exactly-once delivery, and of the scanners and printers around them, with
proofs of what those parts promise. `dafny verify dfyconfig.toml` checks
everything.

| area | modules |
|---|---|
| Flush and WAL truncation | `Points`, `KeyOrder`, `PointCoalesce`, `NativeChunk`, `InsertOrder`, `ColumnStack`, `FieldColumns`, `PreparedSlots`, `PreparedChunk`, `TruncateBarrier`, `FlushService`, `Flusher`, `FlushSafety`, `FlushValues`, `FlushLimits` |
| Schema, series and tag cache of the ingest path | `FieldTypes`, `IngestMetadata`, `IngestCache`, `ConflictSplit` |
| Rollup handoff of a departing node | `Decimal`, `HandoffRanges`, `RollupHandoff`, `HandoffSafety`, `HandoffLimits`, `HandoffTokens` |
| Forward coalescer | `Coalescer` |
| Client batching and 413 halving, Rust and Go | `ClientWrite` |
| Client line protocol printer | `LineProtocol`, `LineReader` |
| MessagePack skipper and size guard | `Bytes`, `MsgPack`, `MsgPackSkip`, `MsgPackTags`, `MsgPackReader`, `MsgPackPeek` |
| Statement splitter | `Unicode`, `Statements`, `StatementLaws` |
| Binary points frames | `Frames` |
| Proxy backend pool | `Pool` |

Code that the source writes as loops and updated fields is written so here, as
methods and classes, and each is proved equal to a function of its inputs or of
the state before; the theorems are about those functions. What the environment
decides (which insert fails, when entries land, when peers ack, what a server
answers, which call of a protocol fails or loses its reply) is a parameter, and
the theorems hold for every value of it.

## What is supposed

- A prepared slot stands for the WAL entry it is cached or stored with: for each
  point it has a row of its series-instant, and for each field what a column of that
  name takes of its value or of a later one. `FlushValues.SlotRepresents` proves this
  of the slots that `PreparedSlots` builds, where each field has a column.
- A sequence is used once, and an entry lands above what the flush has passed over
  by then, as the group-commit writer makes it. It may land in any order otherwise.
  `FlushLimits.LandingExact` says exactly when a step needs this.
- Where a sharded node truncates, the walk over the recorded sizes stops at an entry
  that is flushed; sizes recorded in order always have that
  (`TruncateBarrier.MarginExact`, `TruncateBarrier.OrderedMarginWithin`).
- One flush at a time; one proxy administration call at a time.
- Hashes of series, tags and schemas do not collide; no measurement is dropped
  while a cache remembers it (`IngestMetadata.StaleHitExact` is what a drop
  does).
- The engine ignores an insert whose token it has seen, and the deduplication
  window is not outrun; a departing table does not change between attempts.
- Destinations with different keys have different tables: names do not collide once
  sanitised.
- The columns of one record batch have distinct names.
- The points codec of a frame decodes what it encodes; the text of a finite
  float is made of digits, sign, point and exponent.
- Go's `return sent, flush()` reads `sent` after the call; the language leaves
  that order open.

## What the proofs found

- MessagePack lengths. After a wide marker the skipper calls `rmp`'s `read_u8`,
  `read_u16` or `read_u32`; in `rmp` 0.8 these read a whole number, its own
  marker first. So, but for lengths whose first byte happens to be that marker,
  the guard refuses every body with a string of more than 31 bytes, an array or
  map of more than 15 elements or any blob ahead of the array it looks for.
  `MsgPack.Lengths` models both readings, and both are proved. A length whose first
  byte is that marker is misread, with a byte of what follows in it; such a value is
  skipped right exactly when what is misread is what is left of it
  (`MsgPackTags.MisreadExact`): of the strings of 204 bytes, those that start with 203
  (`MsgPackTags.String204`).
- An ext32 value of the greatest length leaves one byte behind
  (`MsgPackSkip.LongestExtFallsShort`).
- An entry that lands at or below what a chunk passes over is truncated unread, as
  when `wal_batch_size` is 0 and concurrent appends take their sequence before they
  write (`hyperbytedb/src/bootstrap.rs:124-143`). `FlushLimits.LandingExact` is exact
  for a step of any node; `FlushLimits.LateEntryIsLost` is the loss, at any turn of
  the loop.
- The same appends record their sizes after they write, so out of order. The walk that
  finds a sharded node's margin skips unflushed entries only at its start, and can stop
  at one further on: with 7 recorded before 5, and 5 flushed, everything up to 6 is
  truncated (`TruncateBarrier.MarginPassesFlushed`). `TruncateBarrier.MarginExact` is
  exact, and what the margin passes unread is lost (`FlushLimits.OverrunLoses`).
- Signed integers stacked beside unsigned ones in a prepared chunk are cast to
  unsigned, and a negative one becomes null: with -1 and 5 in one field of two entries,
  the first entry leaves the WAL and no insert has its -1
  (`FlushValues.NegativeValueIsLost`). A cell keeps its value exactly when its column
  has the type the columns come to, or the cast gives it back
  (`PreparedChunk.ValueKeptExactly`; `FieldColumns.SignedSurvives` for integers); over
  runs where all do, none is lost (`FlushValues.NoValueLost`), and
  `FlushValues.NegativeLostInRun` is a run where one does not.
- A full cache hit after a drop registers nothing, and after a return with a clashing
  type accepts what plain registration refuses (`IngestMetadata.StaleHitExact`).
- A departing node whose id was used before repeats its tokens, and those rows
  are ignored and then deleted. `HandoffTokens.KeyExact` is exact for one handoff,
  `HandoffTokens.SecondHandoffExact` for that of a node that returned; a returned
  table of at most 50 000 rows is lost whole (`HandoffTokens.SmallReturnIsLost`).
- An unreadable row count empties a table without sending it
  (`HandoffLimits.UnreadableCountLosesRows`). `HandoffLimits.SafeExactlyWhenHeard`
  is exact: rows are lost just when a table is emptied whose count could not be read
  and some of which had not arrived.
- Where floats and unsigned integers meet in one column of a chunk, the column takes
  whichever came first (`ColumnStack.WidestNumber`).
- Round robin repeats a backend only where the cursor wraps
  (`Pool.RoundRobinExact` is exact, `Pool.BackendPool.PickTimes` for the picks made).

## Model

| member | source | states |
|---|---|---|
| `PointCoalesce.CoalescePlan` | hyperbytedb/src/domain/point_coalesce.rs:18-52 | groups the points of a batch by series-instant, in order of first appearance, so that each row of the merged table is the union of its group with later fields winning; it reports a merge exactly when there are fewer groups than points |
| `PointCoalesce.MergePointGroup` | hyperbytedb/src/domain/point_coalesce.rs:56-64 | one row per group: the first member's series and time, the union of all fields, later members winning |
| `PointCoalesce.CoalescePointsAndOrigins` | hyperbytedb/src/domain/point_coalesce.rs:70-86 | rows and origins stay parallel and equal the table built by merging the points one at a time |
| `PointCoalesce.NothingMerged` | hyperbytedb/src/domain/point_coalesce.rs:47-51 | when there are as many rows as points the input is the result, so returning it unchanged is right |
| `PointCoalesce.CoalescePreservesMeaning` | hyperbytedb/src/domain/point_coalesce.rs:56-86 | for every series-instant, writing the merged rows leaves the same fields and the same last origin as writing the original points in order |
| `PointCoalesce.CoalesceCovers` | hyperbytedb/src/domain/point_coalesce.rs:25-64 | every point of a one-measurement batch has a merged row of its series-instant with all its fields, each holding its value or that of a later point of the batch of that series-instant |
| `PointCoalesce.OrderIrrelevant` | hyperbytedb/src/application/flush_service.rs:718-768 | two tables that hold the same cells mean the same at every series-instant, whatever the order of their rows |
| `KeyOrder.SortedKeys` | hyperbytedb/src/application/flush_service.rs:678-678 | measurements are visited in ascending order of database, policy and name, each once |
| `NativeChunk.TakeEntries` | hyperbytedb/src/application/flush_service.rs:621-632 | the entries taken lie within the snapshot; all but the last stay below the point budget; the first one left out is past the snapshot or follows a spent budget |
| `NativeChunk.GroupByMeasurement` | hyperbytedb/src/application/flush_service.rs:644-666 | each measurement holds exactly its rows of the chunk in order, each with its effective origin |
| `NativeChunk.SliceGroup` | hyperbytedb/src/application/flush_service.rs:698-711 | a group cut into consecutive slices |
| `NativeChunk.BuildWorkItems` | hyperbytedb/src/application/flush_service.rs:677-712 | the inserts of all groups: coalesced over the whole measurement first, sliced after |
| `NativeChunk.NativeItems` | hyperbytedb/src/application/flush_service.rs:644-712 | from entries to inserts, equal to the chunk's specification |
| `NativeChunk.SlicesTile` | hyperbytedb/src/application/flush_service.rs:698-711 | the slices of a group, concatenated, are the group: points and origins still aligned |
| `NativeChunk.SlicesWithinLimit` | hyperbytedb/src/application/flush_service.rs:698-711 | every slice is non-empty, parallel to its origins and within the batch limit |
| `NativeChunk.WorkItemsConserve` | hyperbytedb/src/application/flush_service.rs:677-712 | per measurement, the concatenated inserts are its coalesced group |
| `NativeChunk.ChunkConserves` | hyperbytedb/src/application/flush_service.rs:644-712 | a whole native chunk: inserts within the limit and, per measurement, exactly the coalesced rows of its entries |
| `NativeChunk.ChunkPreservesMeaning` | hyperbytedb/src/application/flush_service.rs:682-694 | what a chunk inserts leaves every series-instant as writing its entries' points in order would, and with coalescing no two inserted rows share one |
| `NativeChunk.ChunkCovers` | hyperbytedb/src/application/flush_service.rs:644-712 | every point of every entry taken has a row in an insert of its own measurement, of its series-instant and with all its fields, each holding its value or that of a later point of the chunk of that measurement and series-instant |
| `InsertOrder.AnyOrderPreservesMeaning` | hyperbytedb/src/application/flush_service.rs:718-768 | in whatever order the inserts of a coalesced chunk complete, every measurement means at every series-instant what its points mean in WAL order |
| `PreparedChunk.GroupByMeasurement` | hyperbytedb/src/application/flush_service.rs:407-419 | each measurement holds exactly its prepared batches of the chunk, in order |
| `PreparedChunk.CoalescePreparedBatches` | hyperbytedb/src/domain/arrow_coalesce.rs:18-53 | the batches of one measurement stacked by column name: one column per name, each cell cast to the type its column comes to, series-instants in order, least and greatest time, new series collected; none when the columns cannot be stacked, and a single batch as it is |
| `ColumnStack.ConcatByName` | hyperbytedb/src/domain/arrow_coalesce.rs:91-147 | the columns of all batches in order of first appearance, widened and made nullable as they meet, and each batch cast, filled and put under the one before; equal to its specification, its failures included |
| `ColumnStack.StackKeepsRows` | hyperbytedb/src/domain/arrow_coalesce.rs:85-147 | row i of each batch is a row of the result, after the rows of the batches before it: each cell under its own name, cast to the type the column comes to if that is another, and null under every other name |
| `ColumnStack.EveryColumnStacked` | hyperbytedb/src/domain/arrow_coalesce.rs:96-109 | every column of every batch is a column of the result |
| `ColumnStack.AgreedColumnUnchanged` | hyperbytedb/src/domain/arrow_coalesce.rs:129-134 | where the batches that have a column agree on its type, every cell of it is unchanged |
| `ColumnStack.CellKeptExactly` | hyperbytedb/src/domain/arrow_coalesce.rs:91-147 | a value is in the stack as it was if and only if its column already had the type the columns of that name come to, or the cast to that type gives it back |
| `ColumnStack.MissingFilled` | hyperbytedb/src/domain/arrow_coalesce.rs:135-141 | where missing columns are filled with empty strings, a cell its batch lacks is the empty string cast to the column's type |
| `ColumnStack.NullableStacks` | hyperbytedb/src/domain/arrow_coalesce.rs:110-147 | nullable columns that can be cast to the type they come to always stack |
| `ColumnStack.WidestNumber` | hyperbytedb/src/domain/arrow_coalesce.rs:156-165 | of numeric types the column takes the first that is not a signed integer, so order matters only where floats and unsigned integers meet |
| `FieldColumns.BuildFieldColumn` | hyperbytedb/src/adapters/chdb/native_adapter.rs:2238-2299 | one cell per point: what a column of the type takes of its value, null where the point lacks the field |
| `FieldColumns.FillExact` | hyperbytedb/src/adapters/chdb/native_adapter.rs:2238-2299 | a column holds a value as it is if and only if it is one its type takes: integers in the other kind's range, whole floats within 64 bits, integers a float can hold, strings and booleans in their own |
| `FieldColumns.StackedExact` | hyperbytedb/src/domain/arrow_coalesce.rs:129-134 | a value its own column takes as it is survives the stack if and only if the types agree or the cast gives it back |
| `FieldColumns.SignedBesideUnsigned` | hyperbytedb/src/domain/arrow_coalesce.rs:156-165 | of signed integers stacked beside unsigned ones exactly the negative ones are lost, and become null |
| `FieldColumns.SignedBesideFloats` | hyperbytedb/src/domain/arrow_coalesce.rs:156-165 | of signed integers stacked beside floats exactly those a float cannot hold are changed |
| `FieldColumns.SignedSurvives` | hyperbytedb/src/domain/arrow_coalesce.rs:156-165 | so a signed integer survives any stack of numbers if and only if the type its column comes to would have taken it as it is |
| `PreparedSlots.BuildRecordBatch` | hyperbytedb/src/adapters/chdb/native_adapter.rs:2377-2427 | the rows of one measurement laid out under its table's columns, each cell what its column takes, with the series-instant of each row |
| `PreparedSlots.PrepareMeasurement` | hyperbytedb/src/adapters/chdb/native_adapter.rs:1372-1412 | the points of one measurement of an entry, partial ones merged, laid out so |
| `PreparedSlots.BuildPreparedWalSlot` | hyperbytedb/src/adapters/chdb/native_adapter.rs:1239-1281 | an entry prepared: one batch per measurement in order of its name, and none for no points |
| `FlushValues.SlotRepresents` | hyperbytedb/src/adapters/chdb/native_adapter.rs:1239-1281 | a slot so prepared, from tables that have a column for every field, stands for its entry: a row of the series-instant of each point with, for each field, what its column takes of its value or of a later one |
| `PreparedChunk.SliceRows` | hyperbytedb/src/application/flush_service.rs:447-459 | a stacked batch cut at the row limit |
| `PreparedChunk.PreparedItems` | hyperbytedb/src/application/flush_service.rs:407-459 | from slots to inserts, equal to the chunk's specification, casts and a stack that fails included |
| `PreparedChunk.StackIsCastRows` | hyperbytedb/src/domain/arrow_coalesce.rs:18-53 | the rows of a stack are those of its batches in order, each with the cells that survive the cast to their column's type and no others |
| `PreparedChunk.ValueKeptExactly` | hyperbytedb/src/domain/arrow_coalesce.rs:91-147 | a row of the stack has a value of its batch's row if and only if the column there has the type the columns come to, or the cast gives the value back |
| `PreparedChunk.SlicesTile` | hyperbytedb/src/application/flush_service.rs:447-459 | the slices tile the rows |
| `PreparedChunk.SlicesBounded` | hyperbytedb/src/application/flush_service.rs:825-847 | every slice is non-empty and within the limit, and the new-series batch goes with the first slice and no other |
| `PreparedChunk.ChunkConserves` | hyperbytedb/src/application/flush_service.rs:407-459 | per measurement, the inserts are exactly the rows of its batches, in order, each cell cast to the type its column comes to over the chunk, and within the row limit |
| `PreparedChunk.ChunkCovers` | hyperbytedb/src/application/flush_service.rs:407-459 | every row of every slot taken is, so cast, in an insert of its own measurement |
| `PreparedChunk.InsertedFrom` | hyperbytedb/src/application/flush_service.rs:407-459 | and every row inserted is one of those |
| `TruncateBarrier.ComputeFlushedMargin` | hyperbytedb/src/adapters/wal/rocksdb_wal.rs:695-710 | skips the entries at the end that are past what is flushed, then walks back over every entry while the byte budget lasts, whatever order the sizes were recorded in |
| `TruncateBarrier.MarginKeepsBudget` | hyperbytedb/src/adapters/wal/rocksdb_wal.rs:695-710 | the flushed entries kept behind the margin fit the byte budget, but for those recorded out of order among the ones the walk leaves out; recorded in order there are none |
| `TruncateBarrier.LeftOutExact` | hyperbytedb/src/adapters/wal/rocksdb_wal.rs:695-710 | the walk leaves out as few entries as the budget allows |
| `TruncateBarrier.MarginExact` | hyperbytedb/src/adapters/wal/rocksdb_wal.rs:695-710 | the margin is within what is flushed if and only if the entry the walk stops at is: the newest left out, or the one before the oldest when all fit |
| `TruncateBarrier.OrderedMarginWithin` | hyperbytedb/src/adapters/wal/rocksdb_wal.rs:695-710 | so it always is where sizes were recorded in order |
| `TruncateBarrier.MarginPassesFlushed` | hyperbytedb/src/adapters/wal/rocksdb_wal.rs:695-710 | and need not be otherwise: entry 7 recorded before 5, with 5 flushed, gives a margin of 6 |
| `TruncateBarrier.ReplicationPeers` | hyperbytedb/src/domain/cluster/membership.rs:207-215 | the peers still owed this node's writes: all but itself and those departing |
| `TruncateBarrier.EffectivePeers` | hyperbytedb/src/application/flush_service.rs:310-343 | peers that never acked and whose heartbeat is too old are left out, and no others |
| `TruncateBarrier.MinMaxAck` | hyperbytedb/src/adapters/cluster/replication_log.rs:213-228 | least and greatest acknowledged sequence of the peers |
| `TruncateBarrier.ComputeSafeTruncateSeq` | hyperbytedb/src/application/flush_service.rs:226-381 | the barrier with all its special cases, equal to its specification |
| `TruncateBarrier.BarrierExact` | hyperbytedb/src/application/flush_service.rs:296-381 | an entry of an unsharded replicated node with local writes may go if and only if it is flushed and either every peer that counts acked it, or no counted peer acked anything (or none is listed) and it lies a full retention window behind |
| `TruncateBarrier.SafeTruncateBounded` | hyperbytedb/src/application/flush_service.rs:226-381 | truncation stays within the flushed watermark, whatever the acks and the membership say, if and only if the node is not sharded or its margin does |
| `FlushService.EffectiveLimit` | hyperbytedb/src/application/flush_service.rs:95-99 | the allowed batch size nearest to the configured one, zero meaning the default |
| `FlushService.RoutesWithin` | hyperbytedb/src/application/flush_service.rs:583-637 | whichever path a step takes, what it takes lies after the watermark and within the snapshot |
| `FlushService.StepAdvances` | hyperbytedb/src/application/flush_service.rs:575-805 | every step strictly advances the watermark within the snapshot or ends the flush |
| `Flusher.Service.AwaitInserts` | hyperbytedb/src/application/flush_service.rs:724-768 | all inserts are awaited; rows a materialized destination refuses do not count as failed |
| `Flusher.Service.FinishChunk` | hyperbytedb/src/application/flush_service.rs:773-805 | hold the whole chunk if any insert failed, truncate behind the barrier, then move the watermark |
| `Flusher.Service.FlushPreparedChunk` | hyperbytedb/src/application/flush_service.rs:384-542 | the prepared path of one chunk, equal to its specification: local entries marked, batches stacked with their casts, an error when they cannot be |
| `Flusher.Service.FlushNativeChunk` | hyperbytedb/src/application/flush_service.rs:647-805 | the native path of one chunk, equal to its specification |
| `Flusher.Service.ChooseRoute` | hyperbytedb/src/application/flush_service.rs:576-637 | which path a step takes: prepared slots first, then native entries up to the next prepared one |
| `Flusher.Service.TakeStep` | hyperbytedb/src/application/flush_service.rs:575-805 | one turn of the flush loop, equal to its specification |
| `Flusher.Service.Flush` | hyperbytedb/src/application/flush_service.rs:560-822 | the flush loop, equal to its specification and terminating |
| `FlushSafety.FlushKeepsInv` | hyperbytedb/src/application/flush_service.rs:560-822 | over any flush the watermark never decreases, the safety invariant holds, and on success no entry above the watermark and within the snapshot remains |
| `FlushSafety.RunKeepsInv` | hyperbytedb/src/application/flush_service.rs:560-822 | the safety invariant holds after every run of flushes, appends and restarts with any failures, entries landing in any order above what has been passed over by then, and margins within what is flushed |
| `FlushSafety.NoLoss` | hyperbytedb/src/application/flush_service.rs:384-542 | over any such run, every entry ever removed from the WAL had, in the log as it stood when it went, all its points in inserts that succeeded or were refused as a materialized destination; each field of an entry taken prepared with what the column of its own slot makes of its own value or of that of a later point of its series-instant in the entry, cast to the type the columns of the chunk come to; each field of any other with its own value or that of a later point of its measurement and series-instant in the chunk, as it is |
| `FlushValues.PlainWhereKept` | hyperbytedb/src/application/flush_service.rs:384-542 | in a chunk where each value is one its own column takes as it is, and that column has the type the chunk's columns come to or the cast gives the value back, what is carried is the value itself, own or later |
| `FlushValues.PlainWhereAgreed` | hyperbytedb/src/application/flush_service.rs:384-542 | so where the batches of a chunk agree on the type under each name and take its values as they are, what it carries is the value itself, own or later |
| `FlushValues.NoValueLost` | hyperbytedb/src/application/flush_service.rs:384-542 | so over any run of such chunks, whether or not their batches agree, no value is lost: every point of every removed entry is in an insert settled before it went, each field with its own value or that of a later point of its series-instant |
| `FlushValues.NegativeBesideUnsigned` | hyperbytedb/src/domain/arrow_coalesce.rs:156-165 | a negative integer of any chunk whose column comes to unsigned integers is null in its inserted row |
| `FlushValues.OneIsPrepared` | hyperbytedb/src/adapters/chdb/native_adapter.rs:1239-1281 | the slot of an entry of one point is what preparing it gives |
| `FlushValues.TwoEntriesStack` | hyperbytedb/src/domain/arrow_coalesce.rs:91-147 | -1 in one entry and 5, unsigned, in the next do stack |
| `FlushValues.NegativeValueIsLost` | hyperbytedb/src/application/flush_service.rs:384-542 | a step that finds -1 in one entry and 5, unsigned, in the next, prepared in its cache, from any state that keeps the invariant and whatever lands and whatever inserts succeed: no insert of any chunk that took the first has its -1, and the entry is removed if the step truncates that far |
| `FlushValues.NegativeLostInRun` | hyperbytedb/src/application/flush_service.rs:560-822 | over a run: a node alone whose WAL holds the two entries first flushes them with nothing landing and nothing failing, and the first is gone and its -1 in no insert |
| `FlushValues.TwoWalOk` | hyperbytedb/src/adapters/chdb/native_adapter.rs:1239-1281 | there is such a WAL |
| `FlushSafety.LocalEntriesOutliveTheBarrier` | hyperbytedb/src/application/flush_service.rs:226-381 | over any such run of an unsharded replicated node from a new service, the truncation that removed a local entry was justified for it; the shortcut for nodes without local entries never removes one |
| `FlushLimits.LandingExact` | hyperbytedb/src/application/flush_service.rs:560-822 | for every configuration, a truncating step whose margin is within what is flushed leaves every removed entry settled if and only if whatever has points and lands behind it, at or below its watermark before it reads or at or below the end of its chunk (the old watermark if an insert failed) after that, lies above where it truncates |
| `FlushLimits.LateEntryIsLost` | hyperbytedb/src/adapters/wal/rocksdb_wal.rs:476-523 | at whatever turn of the flush loop an entry lands behind and at or below where the turn truncates, the flush ends with it removed and never settled |
| `FlushLimits.OverrunLoses` | hyperbytedb/src/application/flush_service.rs:226-239 | a margin past the end of the chunk loses every entry with points it passes that no earlier chunk took |
| `FlushLimits.StepRemoves` | hyperbytedb/src/application/flush_service.rs:773-805 | what is there when a step reads, at or below where it truncates, is removed as it was |
| `FieldTypes.MergeIsUpperBound` | hyperbytedb/src/domain/field_type.rs:34-52 | merged field types absorb both sides |
| `FieldTypes.MergeIsLeast` | hyperbytedb/src/domain/field_type.rs:34-52 | and are within every map that absorbs both: the merge is a join |
| `FieldTypes.BoundedMeansCompatible` | hyperbytedb/src/domain/field_type.rs:11-24 | types with a common upper bound can be merged |
| `IngestCache.IngestSchemaCache.UnknownSeries` | hyperbytedb/src/application/ingest_metadata.rs:251-273 | the points whose series the cache has not seen, and those series |
| `IngestCache.IngestSchemaCache.MarkTagValues` | hyperbytedb/src/application/ingest_metadata.rs:227-236 | tag values are remembered, after a full cache was emptied |
| `IngestCache.IngestSchemaCache.MarkSeriesSeen` | hyperbytedb/src/application/ingest_metadata.rs:278-291 | series are remembered, after a full cache was emptied |
| `IngestCache.CollectSchemas` | hyperbytedb/src/application/ingest_metadata.rs:731-772 | the schema of each measurement of a batch, or a conflict when two of its points clash |
| `IngestCache.RegisterNovelTags` | hyperbytedb/src/application/ingest_metadata.rs:779-834 | known schemas: only tag values of unseen series are stored, before anything is marked |
| `IngestCache.RegisterBatch` | hyperbytedb/src/application/ingest_metadata.rs:857-946 | unknown schemas: check types, register everything, then mark |
| `IngestCache.PrepareCached` | hyperbytedb/src/application/ingest_metadata.rs:701-949 | registration with the cache, equal to its specification, with a port failing anywhere |
| `IngestCache.PrepareUncached` | hyperbytedb/src/application/ingest_metadata.rs:701-949 | registration without a cache, equal to its specification |
| `IngestMetadata.CachedMatchesUncached` | hyperbytedb/src/application/ingest_metadata.rs:701-949 | from any store a sound cache describes, one batch is accepted or refused alike and leaves the same series, tag values and schemas |
| `IngestMetadata.CachedKeepsSound` | hyperbytedb/src/application/ingest_metadata.rs:701-949 | whatever happens to a batch, including a port failing half way, the cache claims no more than the store holds; above all a series marked seen has its tag values stored |
| `IngestMetadata.HistoryKeepsSound` | hyperbytedb/src/application/ingest_metadata.rs:110-292 | the same after any history of batches, failures, evictions and other writers |
| `IngestMetadata.CacheRefinesNoCache` | hyperbytedb/src/application/ingest_metadata.rs:701-949 | after any such history, any one list of batches, evictions and other writers' batches interleaved gets the same verdicts and leaves the same store with the cache as without; other writers may fail half way |
| `IngestMetadata.EachBatchAgrees` | hyperbytedb/src/application/ingest_metadata.rs:701-949 | and at any point of any history, failed port calls included, a batch that meets no fault fares as without the cache on the same store |
| `IngestMetadata.StaleHitExact` | hyperbytedb/src/application/ingest_metadata.rs:774-787 | a full hit accepts with no I/O whatever the store holds, and plain registration does the same, verdict and store, if and only if the store still holds all of the batch in types that admit it: neither a drop nor a return with a clashing type is noticed |
| `ConflictSplit.FindConflict` | hyperbytedb/src/application/ingest_metadata.rs:663-674 | a field whose type cannot be widened to the known one, if there is any |
| `ConflictSplit.SplitFieldTypeConflicts` | hyperbytedb/src/application/ingest_metadata.rs:640-699 | the kept points, the number dropped and whether there is an error, equal to the specification |
| `ConflictSplit.SplitIsExact` | hyperbytedb/src/application/ingest_metadata.rs:651-689 | kept and dropped partition the batch in order: a point is dropped exactly when it clashes with the stored types joined with the points kept before it |
| `ConflictSplit.KeptPointsRegister` | hyperbytedb/src/application/ingest_metadata.rs:640-766 | registering the kept points never raises a field type conflict, with a sound cache or without one |
| `HandoffRanges.BoundsFit` | hyperbytedb/src/application/mv_handoff.rs:61-71 | no 128-bit product loses anything in its 64-bit cast, for every n below 2^64 |
| `HandoffRanges.RangeBounds` | hyperbytedb/src/application/mv_handoff.rs:61-71 | every range is non-empty |
| `HandoffRanges.RangesPartition` | hyperbytedb/src/application/mv_handoff.rs:61-71 | every 64-bit id, the largest included, is in exactly one range |
| `HandoffRanges.TokenInjective` | hyperbytedb/src/application/mv_handoff.rs:76-99 | tokens for one table differ whenever node, index or range count do, after sanitizing too |
| `HandoffRanges.TokenIsSafe` | hyperbytedb/src/application/mv_handoff.rs:163-170 | every token passes the receiver's character check |
| `RollupHandoff.HandOffRollups` | hyperbytedb/src/application/mv_handoff.rs:242-295 | send every range of both tables of a destination, then empty them; equal to its specification, with a call failing or its reply lost anywhere |
| `HandoffSafety.AttemptKeeps` | hyperbytedb/src/application/mv_handoff.rs:242-295 | an attempt in which the count of each table it empties is heard, or all of the table had arrived, keeps the handoff's invariant, only ever empties tables, and on success has emptied them all; any other call may fail or lose its reply |
| `HandoffSafety.NoRowLost` | hyperbytedb/src/application/mv_handoff.rs:242-295 | over any sequence of such attempts by several departing nodes, each departing table is whole or all of it has arrived, and the receiver holds what it had plus exactly the rows whose tokens it saw |
| `HandoffSafety.ExactlyOnce` | hyperbytedb/src/application/mv_handoff.rs:154-183 | once every departing node's table is empty after such attempts, the receiver holds what it had plus every departing row exactly once |
| `HandoffTokens.FineKey` | hyperbytedb/src/application/mv_handoff.rs:242-295 | when nothing fails, a destination's handoff succeeds, empties both its tables and no other, and leaves at the receiver the import of every range in order |
| `HandoffTokens.FreshTokensNeeded` | hyperbytedb/src/application/mv_handoff.rs:76-99 | importing every range in order adds the whole table if and only if none of its rows' tokens was seen before |
| `HandoffTokens.KeyExact` | hyperbytedb/src/application/mv_handoff.rs:242-295 | so a handoff in which nothing fails empties each table whatever arrived, and it arrived whole if and only if none of its rows' tokens was seen before |
| `HandoffTokens.SecondHandoffExact` | hyperbytedb/src/application/mv_handoff.rs:76-99 | of a node that hands off, returns under its id with other rows and hands off again, the second table is emptied too, and arrives whole if and only if no row of it shares a range, of as many, with a row of the first |
| `HandoffTokens.SmallReturnIsLost` | hyperbytedb/src/application/mv_handoff.rs:76-99 | with no more rows than one range holds either time, the second table is emptied and nothing of it arrives |
| `HandoffLimits.UnreadableCountLosesRows` | hyperbytedb/src/application/mv_handoff.rs:120-135 | one row, one attempt, one count reply that cannot be read: the attempt succeeds and the row is at neither end |
| `HandoffLimits.KeySafeExactly` | hyperbytedb/src/application/mv_handoff.rs:120-135 | from the invariant, one destination leaves every departing table safe if and only if each table it emptied had a count that could be read, or had all arrived or been empty |
| `HandoffLimits.SafeExactlyWhenHeard` | hyperbytedb/src/application/mv_handoff.rs:242-295 | the same over any run of attempts: no table loses a row if and only if every emptied one was so counted; replies to other calls do not matter, and a row once lost stays lost |
| `HandoffTokens.FineAttemptSucceeds` | hyperbytedb/src/application/mv_handoff.rs:242-295 | an attempt in which nothing fails succeeds |
| `Coalescer.MakeLimits` | hyperbytedb/src/application/forward_coalescer.rs:70-79 | each limit is the one asked for, and one where that is zero |
| `Coalescer.FillRequest` | hyperbytedb/src/application/forward_coalescer.rs:161-178 | a request keeps queue order and loses nothing, is one job or within both limits, carries the job that did not fit, and stops short only at a limit, such a job or an empty queue |
| `Coalescer.LaneTurn` | hyperbytedb/src/application/forward_coalescer.rs:148-184 | one turn of the lane's loop is a dispatch step of the state machine |
| `Coalescer.SendJobs` | hyperbytedb/src/application/forward_coalescer.rs:188-223 | what every job of a request is told, equal to the specification, a wrong number of results failing all |
| `Coalescer.CompleteRequest` | hyperbytedb/src/application/forward_coalescer.rs:180-223 | a request that comes back is a completion step of the state machine: each job told its reply, the slot free again |
| `Coalescer.OwnSlice` | hyperbytedb/src/application/forward_coalescer.rs:201-206 | each write's reply is exactly the results at the positions its own parts had in the request |
| `Coalescer.RunConserves` | hyperbytedb/src/application/forward_coalescer.rs:139-223 | in every run of a lane: jobs leave in queue order, sent jobs plus pending ones are those submitted, sent jobs are out or answered with multiplicity, each request is one job or within the limits, and no more requests are out than allowed |
| `Coalescer.RunAnswers` | hyperbytedb/src/application/forward_coalescer.rs:139-223 | in every run of a lane, every request sent is out or came back once, and the answers are those of the requests that came back, job by job, in that order |
| `Coalescer.AnswersAreOwn` | hyperbytedb/src/application/forward_coalescer.rs:197-222 | every answer of a run is that of one position of one request sent: what its outcome means for that job, which is its own slice of the results when there is one for each part |
| `ClientWrite.WriteBatch` | clients/go/client.go:292-322 | recursive halving extends the requests sent and never nests an interruption |
| `ClientWrite.WriteBatchStack` | clients/rust/src/client.rs:387-428 | the explicit stack sends the same requests in the same order with the same written count and error as recursive halving, for every server |
| `ClientWrite.StackTurn` | clients/rust/src/client.rs:390-426 | each turn of the stack loop keeps the outcome and lowers the sum of 2*len-1 over the stack |
| `ClientWrite.RequestBound` | clients/rust/src/client.rs:387-428 | at most 2n-1 requests for n lines (one for none) |
| `ClientWrite.RequestBoundIsTight` | clients/rust/src/client.rs:387-428 | a server that refuses every part of more than one line reaches the bound |
| `ClientWrite.WriteBatchAcksPrefix` | clients/rust/src/client.rs:387-428 | the acknowledged lines are, in order, the first written ones of the batch, and all of it on success |
| `ClientWrite.RustWriteLines` | clients/rust/src/client.rs:340-383 | greedy batching and writing, equal to the specification |
| `ClientWrite.GoWriteLines` | clients/go/client.go:249-290 | the Go client's batching gives the same outcome |
| `ClientWrite.BatchesAreFaithful` | clients/rust/src/client.rs:354-381 | the batches hold every non-blank line once and in order, each within the point and byte limits unless it is one line |
| `ClientWrite.WholeWriteAccounting` | clients/rust/src/client.rs:340-383 | Ok(n) only when all n non-blank lines were acknowledged in order; on an error written() is exactly the length of the acknowledged prefix |
| `LineProtocol.Escape` | clients/rust/src/line_protocol.rs:184-198 | appends the escaped name, or fails exactly on a newline |
| `LineProtocol.QuotedOnce` | clients/rust/src/line_protocol.rs:219-219 | replacing backslashes and then quotes is one escaping pass |
| `LineProtocol.PrintValue` | clients/rust/src/line_protocol.rs:200-222 | the text of a field value, none for a non-finite float, and the two error cases |
| `LineProtocol.PrintFields` | clients/rust/src/line_protocol.rs:141-150 | the kept fields joined by commas, or the first error in key order |
| `LineProtocol.PrintTags` | clients/rust/src/line_protocol.rs:156-164 | the non-empty tags, or the first error |
| `LineProtocol.ToLine` | clients/rust/src/line_protocol.rs:140-181 | the line, no line when no field is left, or the first error: fields before measurement before tags |
| `LineProtocol.Encode` | clients/rust/src/line_protocol.rs:225-236 | the lines of the points that have one, joined by newlines, or the first error |
| `LineReader.ReadEscaped` | clients/rust/src/line_protocol.rs:184-198 | reading up to an unescaped stop undoes escaping, whatever follows |
| `LineReader.ReadPrinted` | clients/rust/src/line_protocol.rs:200-222 | a printed value reads back with its type, unsigned as integer |
| `LineReader.LineReadsBack` | clients/rust/src/line_protocol.rs:140-181 | a reader that splits at unescaped delimiters recovers measurement, non-empty tags, kept fields and time from every line |
| `LineReader.LineIsOneLine` | clients/rust/src/line_protocol.rs:184-222 | no line is empty or holds a newline |
| `LineReader.EncodeReadsBack` | clients/rust/src/line_protocol.rs:225-236 | so a whole body reads back as exactly the points that had a field to write, in order |
| `MsgPackReader.Reader.SkipBytes` | hyperbytedb/src/application/msgpack_limits.rs:90-100 | skips n bytes in pieces of 4096, or fails when there are fewer |
| `MsgPackReader.Reader.SkipValue` | hyperbytedb/src/application/msgpack_limits.rs:16-88 | one value of any format, equal to the specification, on any bytes |
| `MsgPackReader.Reader.SkipArrayElements` | hyperbytedb/src/application/msgpack_limits.rs:102-107 | n values |
| `MsgPackReader.Reader.SkipMapEntries` | hyperbytedb/src/application/msgpack_limits.rs:109-115 | n keys and values |
| `MsgPackReader.Reader.TakeStr` | hyperbytedb/src/application/msgpack_limits.rs:117-132 | a string of any format whose bytes are UTF-8 |
| `MsgPackReader.PeekColumnarValuesLen` | hyperbytedb/src/application/msgpack_limits.rs:145-160 | the size guard, equal to the specification |
| `MsgPack.Skip` | hyperbytedb/src/application/msgpack_limits.rs:16-88 | on arbitrary bytes skipping terminates, and succeeds only having consumed something |
| `MsgPackSkip.SkipUndoesEncode` | hyperbytedb/src/application/msgpack_limits.rs:16-115 | for every value of every format and any suffix: with lengths read bare, skipping consumes exactly the encoding; with lengths read as whole numbers, exactly when every length is in its marker, and it refuses the rest; of lengths, only those reached are supposed not to look like a number's marker, and MsgPackTags.SkipIs supposes nothing |
| `MsgPackTags.SkipIs` | hyperbytedb/src/application/msgpack_limits.rs:16-115 | for every value of every format and any suffix, with nothing supposed of its lengths, what skipping comes to in either reading: item by item as written, a length outside its marker read as it is, refused or misread with the byte after it, and only past one misread bytes skipped wherever that led |
| `MsgPackSkip.LongStringRefused` | hyperbytedb/src/application/msgpack_limits.rs:25-28 | so a string of 32 to 255 bytes (but 204) is skipped one way and refused the other |
| `MsgPackTags.MisreadExact` | hyperbytedb/src/application/msgpack_limits.rs:16-100 | a string, blob or extension whose length looks like a number's marker is skipped exactly if and only if the length misread from it is that of what is left of it |
| `MsgPackTags.GroupMisread` | hyperbytedb/src/application/msgpack_limits.rs:16-115 | of an array or map whose length looks so, as many items are skipped as are misread, from the byte after the one taken into the length |
| `MsgPackTags.String204` | hyperbytedb/src/application/msgpack_limits.rs:25-28 | of the strings of 204 bytes behind one length byte, exactly those that start with 203 are skipped exactly |
| `MsgPackSkip.LongestExtFallsShort` | hyperbytedb/src/application/msgpack_limits.rs:80-83 | an ext32 of length 2^32-1 leaves its last byte behind, the sum with the type byte having saturated |
| `MsgPackReader.PeekFindsValues` | hyperbytedb/src/application/msgpack_limits.rs:145-160 | on the encoding of any map the guard gives the array length under the first key values, nothing without one, and an error when it is no array, when a key up to it is no string, or when what comes before cannot be skipped; nothing is supposed of that array or what follows it; of the lengths before it, those reached are supposed not to look like a number's marker, and MsgPackPeek.PeekIs supposes nothing |
| `MsgPackPeek.PeekIs` | hyperbytedb/src/application/msgpack_limits.rs:145-160 | on the encoding of any map and any suffix, with nothing supposed of its lengths, what the guard finds in either reading: entry by entry as written, and past one misread in the bytes left |
| `Statements.Trim` | hyperbytedb-cli/src/repl/split.rs:65-68 | the range without white space at either end |
| `Statements.SplitStatements` | hyperbytedb-cli/src/repl/split.rs:5-94 | the scan over quotes, regular expressions and BEGIN blocks, equal to the specification |
| `StatementLaws.SplitIsLossless` | hyperbytedb-cli/src/repl/split.rs:5-94 | the statements are non-empty trimmed disjoint substrings in order, and what is left out is exactly white space and the semicolons met outside literals and BEGIN blocks |
| `StatementLaws.SplitIsStable` | hyperbytedb-cli/src/repl/split.rs:5-94 | splitting any statement again returns just that statement |
| `StatementLaws.SameKeyword` | hyperbytedb-cli/src/repl/split.rs:104-113 | a keyword is recognised in a statement exactly as in the whole input |
| `Frames.EncodePoints` | hyperbytedb/src/application/line_protocol.rs:65-78 | one frame, its length patched in once the payload is there; an error when the codec fails or the payload is over 4 GiB |
| `Frames.DecodeFrames` | hyperbytedb/src/application/line_protocol.rs:95-133 | frame after frame, equal to the specification |
| `Frames.DecodeConcatenates` | hyperbytedb/src/application/line_protocol.rs:95-133 | frames with white space around them decode to the concatenation of their points if and only if there are no more than the limit, and are refused as too large otherwise |
| `Frames.AcceptedIsFrames` | hyperbytedb/src/application/line_protocol.rs:95-133 | every accepted body is such frames, and what it gave is their points |
| `Frames.FrameRoundTrip` | hyperbytedb/src/application/line_protocol.rs:51-78 | an encoded frame is recognised as binary and decodes to its points, given a codec that round-trips |
| `Pool.BackendPool.ExcludeBackend` | hyperbytedb-proxy/src/pool.rs:99-108 | sets both records of exclusion, says whether it was new, and fails exactly when the address is not in the pool |
| `Pool.BackendPool.IncludeBackend` | hyperbytedb-proxy/src/pool.rs:113-120 | clears both records and says whether it was excluded |
| `Pool.BackendPool.Resolve` | hyperbytedb-proxy/src/pool.rs:252-271 | the addresses found, sorted, each once, without the proxy's own |
| `Pool.BackendPool.Reconcile` | hyperbytedb-proxy/src/pool.rs:273-315 | the pool becomes the addresses given, a surviving address keeps its backend object, others start unknown and not excluded, exclusions shrink to the pool, and both records still agree |
| `Pool.BackendPool.Discover` | hyperbytedb-proxy/src/pool.rs:215-228 | the same for whatever the lookup gave |
| `Pool.BackendPool.ProbeOne` | hyperbytedb-proxy/src/pool.rs:317-361 | health and failure count follow the answer; no exclusion changes |
| `Pool.BackendPool.PickActive` | hyperbytedb-proxy/src/pool.rs:154-169 | the routable backend the cursor points at; only active members that are not excluded, none only when there is none |
| `Pool.BackendPool.PickActiveExcluding` | hyperbytedb-proxy/src/pool.rs:174-187 | the same without one backend |
| `Pool.RoundRobinExact` | hyperbytedb-proxy/src/pool.rs:167-168 | n picks in a row take each of n routable backends once, if and only if the cursor does not wrap among them or n divides its span |
| `Pool.BackendPool.PickTimes` | hyperbytedb-proxy/src/pool.rs:154-169 | picks in a row take the routable backends at the cursor's positions, and as many picks as there are take none twice if and only if the cursor does not wrap meanwhile or their number divides its span |

## Left out

- Foreign code: chDB, RocksDB, Arrow, bincode, `rmp` and the server's line protocol parser appear only through what is supposed of them.
- Flusher: does not model the limit on concurrent inserts, metrics, the mutation log, or `drain`, which repeats `flush` and need not end while writes go on.
- PreparedChunk.CoalescePreparedBatches: what a cast makes of a cell is a parameter (of negative integers cast to unsigned only that they become null is supposed, where that is said); new series are rows rather than columns, and how dictionary columns are encoded is not modelled.
- Points: floats are reals, so NaN and infinities are not modelled; physical column names are the field names.
- The sink: what an insert makes of its rows in the table's own type, `pad_record_batch_to_ensured` and the columns built for native rows, lies beyond the port the flush writes to.
- PreparedSlots: does not model how a table comes to have its columns, or slots built from columnar bodies.
- IngestMetadata: does not model cardinality limits, `prepare_columnar_metadata` (it registers no series), or the size at which a set is evicted: eviction may happen at any time.
- RollupHandoff: does not model `receive_chunk`'s check that the destination is known, or SQL text.
- Coalescer: does not model a lane that ends and is started again, or the request itself; completion order and outcomes are arbitrary.
- ClientWrite: does not model retries of one request, gzip or the texts of errors.
- LineProtocol: does not model the float formatter; maps are sequences in iteration order.
- Statements: bytes are characters; nesting depth has no 32-bit bound.
- MsgPack: does not model the stack that nested values take.
- Pool: does not model in-flight counters, the wake-up of waiting requests, or interleavings inside one operation.
- Server-side line protocol text output, materialized view definitions, continuous queries, backup, HTTP, authentication, configuration and the command line beside the splitter: plumbing or easy members.
