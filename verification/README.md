# A verified model of the CLOB indexer

The indexer follows a chain block by block. It keeps order books, hot orders, markets, paper positions and
candles in memory, writes what changes to a store through a pipeline of queues, and restores memory from the
store or from a peer. This project models that logic in Dafny and proves that the incremental, concurrent
and restored forms agree with the simple ones.

| file | part of the system |
|---|---|
| `Ints`, `Text`, `Sums` | 64-bit arithmetic and casts, address keys, sums over maps |
| `WriteSets` | put and delete sets of a block, their merge, the write batch, the store |
| `Books`, `OrderIndex`, `Processor` | price levels and deltas, the three order maps, the event loop of one market |
| `Mirror`, `Parallel`, `Grouping` | the store mirrors memory; markets in parallel do what block order does |
| `BookRuns`, `OrderRuns` | last price and trades of a book, status and history of an order, over any run |
| `EventEffects` | what one event does to book, orders, history and vault holdings |
| `BookOrders` | each level is the sum of the orders resting there |
| `Pipeline`, `Epochs`, `Checkpoint`, `Pending` | the stages from block to disk, epoch clones and gated reads, checkpoints, the shared counter |
| `Snapshot`, `Replay`, `Recovery`, `Restarts` | save and load, replaying blocks, tables and memory after any number of restarts |
| `Formatting`, `Replica` | printed numbers, and subscribers that rebuild a book from printed deltas |
| `Calendar`, `Bars`, `Candles` | civil-day arithmetic, the candle engine, and what its bars say |
| `Peer`, `PaperOi`, `Registry`, `KeyRange`, `Slugs` | catching up from a peer, open interest, market registry, range scans, slugs |

Code that updates state in place is a class or a method with loops, proved against specification functions;
stages that run concurrently are step relations; pure code is functions. Answers of the chain node, the
order in which hash maps are walked, the interleaving of tasks and the delivery of messages are arbitrary.

`dafny verify dfyconfig.toml` checks everything. No proof rests on automatic induction.

Where the code does not meet a property everywhere, the condition under which it does is proved in both
directions: `MergeIsComposition`, `FullReplaceIsExact`, `InsertCoherentIff`, `UpdateStatusIff`, `ReadsBackIff`,
`AmountsSurviveIff`, `RestoredAlikeIff`, `FoldMirrorsIff`, `TablesKeepIff`, `WriteIsExact`, `DurableIff`,
`NamedCloneIff`, `ForcedWriteRepairsIff`, `RoundTripIff`,
`CalendarMonthStartIff`, `EngineIsGroupByIff`, `EngineRollsUpIff`, `PricePrintsAlike`, `DeltaFollowsIff`,
`ReplicaCorrectIff`, `CatchupIsReplayIff`, `OpenConservesIff`, `FreshOpenConservesIff`, `EventKeepsIff`,
`RangeIsExactIff`, `IdleMeansDrained`. Runs on which it fails are given by `StaleFullReplace`,
`NamedCloneBehind`, `SnapshotOvertaken`, `RestartLoses`, `ClosedTwice` and `UnprintableBreaks`.

Two places where code and comment differ, modelled as the code does it: the note above
`big_endian_saturating_add_one` says that a minimal vector is left alone, while it is the maximal one; and
the upper exclusive bound in `create_read_options_with_range` is noted as inclusive.

## Model

| member | source | states |
|---|---|---|
| `WriteSets.IndexWriteSet.Store` | src/persist/index_write_set.rs:136-141 | A put leaves its key in the put set with the new row and out of the delete set |
| `WriteSets.IndexWriteSet.Delete` | src/persist/index_write_set.rs:142-146 | A delete leaves its key in the delete set and out of the put set |
| `WriteSets.IndexWriteSet.StoreBookLevel` | src/persist/index_write_set.rs:147-158 | A level of size zero or less is recorded as a delete, any other as a put |
| `WriteSets.IndexWriteSet.StoreVaultPortfolio` | src/persist/index_write_set.rs:185-195 | A holding of zero or less is recorded as a delete, any other as a put |
| `WriteSets.IndexWriteSet.Merge` | src/persist/index_write_set.rs:45-105 | The merge loops leave the stores of the other set overriding, its deletes overriding both, and its full-replace flag sticky |
| `WriteSets.DisjointKept` | src/persist/index_write_set.rs:125-195 | Every put, delete and merge keeps the put and delete sets apart |
| `WriteSets.PutThenApply` | src/persist/index_write_set.rs:125-195 | Collecting one more put or delete and then writing equals writing and then performing it |
| `WriteSets.MergeIsComposition` | src/persist/index_write_set.rs:45-105 | Writing a merged set equals writing its parts in turn if and only if no row separates them: a row both stored and deleted by the second set, or stored by the first and untouched by a full replace |
| `WriteSets.IndexStateStore.DeleteBatch` | crates/typed-store/src/rocks/mod.rs:1368-1384 | Appending deletes in any order removes exactly the given keys after the earlier changes |
| `WriteSets.IndexStateStore.InsertBatch` | crates/typed-store/src/rocks/mod.rs:1434-1456 | Appending puts in any order overrides exactly the given rows after the earlier changes |
| `WriteSets.IndexStateStore.BuildIndexWriteBatch` | src/persist/index_state_tables.rs:167-273 | The built batch, written to any later state, deletes the keys seen at build time for a full replace, then the deletes, then the stores, then the head |
| `WriteSets.IndexStateStore.Write` | crates/typed-store/src/rocks/memstore.rs:82-90 | The write loop performs the changes in the order in which they were appended |
| `WriteSets.IndexStateStore.ApplyIndexWriteSet` | src/persist/index_state_tables.rs:276-281 | Build and write at once give the tables the set describes |
| `WriteSets.FullReplaceIsExact` | src/persist/index_state_tables.rs:477-495 | A full replace leaves exactly its stored rows if and only if every row present at write time was seen by the build or is named by the set |
| `Books.Books.ApplyLevelChange` | src/indexer/books.rs:554-632 | One level moves by a saturating amount, an emptied level is removed, the sequence moves by one, and rows and message say the same |
| `Books.Books.ApplyCreated` | src/indexer/books.rs:301-338 | A created order adds its amount at its level, collects the rows and publishes the delta; price or amount zero does nothing |
| `Books.Books.ApplyCancelled` | src/indexer/books.rs:340-377 | A cancellation takes its amount off its level, collects the rows and publishes the delta; price or amount zero does nothing |
| `Books.Books.ApplyUpdated` | src/indexer/books.rs:379-439 | An update moves the level from the old remaining amount to the new one, in the right direction, and nothing else |
| `Books.Books.ApplyFilled` | src/indexer/books.rs:441-506 | A fill takes its amount off, sets the last price and lists a trade unless it is the other side of the one before; what these come to over a run is `LastPriceIsLatest` and `TradesAreFills` |
| `Books.Books.HydrateFromChain` | src/indexer/books.rs:236-299 | Hydration deletes every old level, stores the positive levels of the node, takes a sequence number and publishes nothing |
| `Books.Books.ImportFromPersist` | src/indexer/books.rs:161-197 | The import loops rebuild shards from meta rows first and positive levels after |
| `Books.OpLevels` | src/indexer/books.rs:301-506 | An operation changes the named level of the named side and no other level |
| `Books.NoEmptyLevelKept` | src/indexer/books.rs:554-600 | No operation and no hydration ever stores a level of size zero |
| `BookRuns.LastPriceIsLatest` | src/indexer/books.rs:554-632 | Over any run of operations and hydrations the last price is that of the latest fill with an effect or hydration that knew a price, whichever came later, and the first one if there was neither |
| `BookRuns.MessageTells` | src/indexer/books.rs:602-632 | A message prints the last price after its change, which after a fill is the price of the fill, and carries the number and block of the change |
| `BookRuns.LastFillIsLatest` | src/indexer/books.rs:470-548 | The fill that the next one is compared with is the latest that had an effect |
| `BookRuns.TradeListed` | src/indexer/books.rs:470-548 | A fill is listed and published before all older trades, printed as it is, unless it repeats block, price and amount of the latest fill |
| `BookRuns.TradesAreFills` | src/indexer/books.rs:470-548 | Over any run from an empty book: a fill that differs from the latest one before it is listed first and the older trades keep their order, the newest fifty; nothing else moves the list |
| `OrderIndex.OrderIndex.InsertOrder` | src/indexer/index_state.rs:2317-2359 | A hot order enters the three maps and the delta; a terminal one only enters the history |
| `OrderIndex.OrderIndex.UpdateOrderCancelled` | src/indexer/index_state.rs:2467-2479 | A cancelled order leaves all three maps, is deleted from the tables and enters the history |
| `OrderIndex.OrderIndex.UpdateOrderAmount` | src/indexer/index_state.rs:2481-2526 | An amended order takes the new size and the status its remaining and filled amounts give, and leaves when that is terminal |
| `OrderIndex.OrderIndex.UpdateOrderFill` | src/indexer/index_state.rs:2528-2571 | A filled order accumulates its amount and leaves when nothing remains; its status is that of `UpdateTells` |
| `OrderIndex.OrderIndex.RebuildOrderIndexes` | src/indexer/index_state.rs:2576-2590 | The rebuild loop yields secondary indexes that list exactly the orders |
| `OrderIndex.InsertCoherentIff` | src/indexer/index_state.rs:2317-2359 | Inserting a hot order keeps the three maps describing one set if and only if its id is new or comes back for the same user and composite id |
| `OrderIndex.OpCoherent` | src/indexer/index_state.rs:2467-2571 | Cancels, amendments and fills always keep the maps coherent, and hot |
| `OrderIndex.CoherentIffRebuilt` | src/indexer/index_state.rs:2576-2590 | The kept indexes are coherent if and only if they are those a rebuild gives once users without orders are dropped |
| `OrderRuns.UpdateTells` | src/indexer/index_state.rs:2467-2571 | An update of a known order leaves the other orders alone; it ends the order exactly when it is a cancel or leaves nothing, with exactly one history entry of the same order, its accumulated fill and size, cancelled exactly after a cancel and filled exactly after a fill or amendment; otherwise the order stays, open only if nothing was filled and partially filled else |
| `OrderRuns.UpdateStatusIff` | src/indexer/index_state.rs:2528-2571 | Each hot order stays open while nothing is filled and partially filled from then on, if and only if the update is not a fill of nothing that leaves something of an untouched order |
| `OrderRuns.HotStatus` | src/indexer/index_state.rs:2467-2571 | Over every run without such fills, from no orders, that is the status of every hot order |
| `OrderRuns.HotOrdersAccount` | src/indexer/index_state.rs:2317-2571 | Over every run of fresh insertions and any updates a hot order is the one inserted last under its composite id, with the saturating sum of its fills and the size of the latest amendment |
| `OrderRuns.EntryTells` | src/indexer/index_state.rs:2317-2571 | On such a run each update that ends an order adds exactly one history entry: that order as inserted, with that sum and size, cancelled after a cancel and filled otherwise; other updates add none, and an insertion only an ended order |
| `Processor.IndexState.ApplyEvent` | src/indexer/processor.rs:801-1105 | One event performs its calls in order: duplicates skipped, book before orders, trade and hydration before a fill |
| `Processor.IndexState.ApplyMarketOrderEvents` | src/indexer/processor.rs:801-1105 | The event loop of one market leaves the memory and the delta of the sequential specification |
| `Processor.IndexState.EnsureChainHydrated` | src/book_hydrate.rs:29-109 | A market not yet hydrated takes the book of the node once; a failing node leaves it as it was (`HydrationTells`) |
| `Processor.IndexState.ApplyVaultFill` | src/indexer/index_state.rs:1676-1721 | A fill by the account of a vault moves its holding by a saturating amount, in the direction of `EventHoldings`, and removes it at zero |
| `Processor.RunEnsuring` | src/book_hydrate.rs:29-109 | The check, the question to the node and the unchecked write of a hydration come to one hydration when nothing lies between them |
| `Processor.EventUnfolds` | src/indexer/processor.rs:801-1105 | The calls of each kind of event, one after the other |
| `EventEffects.HydrationTells` | src/book_hydrate.rs:29-109 | A market that is not hydrated, with the node up and a price on record or told, takes the node's bids as bids and asks as asks: at every price the last positive quote, or nothing; its last price is the one on record, else the node's, else the old one. Otherwise nothing changes at all |
| `EventEffects.RehydrationTells` | src/indexer/processor.rs:322-358 | Hydrating again takes the same from the node in whatever state the market is |
| `EventEffects.EventBook` | src/indexer/processor.rs:801-1105 | After any event the levels are those the event started from, the node's where it hydrates the market, moved by the event's amount at its side and price within 64 bits; last price, number, latest fill and trades follow, a fill records its price before it asks the node, and no other market moves |
| `EventEffects.EventOrders` | src/indexer/processor.rs:801-1105 | An event is one step of the orders and their history: a new order is stored open and untouched at its limit, its trigger's limit or zero; an executed market order only enters the history, filled if all of a positive amount is and cancelled otherwise; a known chain id is passed over |
| `EventEffects.EventsStatus` | src/indexer/processor.rs:801-1105 | Over all events of a market each hot order is open while nothing is filled and partially filled from then on, if every fill event fills something or ends its order |
| `EventEffects.EventHoldings` | src/indexer/processor.rs:1000-1035 | A fill of a positive amount whose order is still hot after it, with a vault's account as its user, leaves that vault min(before + amount, 2^64 - 1) on a buy and max(before - amount, 0) on a sell, no entry at zero, and moves no other vault or market; any other event, and a fill that ends its order, moves no holding |
| `Mirror.CallMirrored` | src/indexer/processor.rs:801-1105 | One store call keeps every row of its market equal to the projection of memory |
| `Mirror.DeltaMirror` | src/indexer/processor.rs:801-1105 | If the tables mirror memory, then after any list of order events, hydrations included, the collected delta turns them into the mirror of the new memory |
| `Mirror.ReadsBackIff` | src/persist/index_state_tables.rs:421-474 | A mirrored level or holding reads back as memory has it if and only if it is below 2^63 |
| `Parallel.CallsCommute` | src/indexer/processor.rs:359-384 | Store calls of two markets commute, the check, question and write of a hydration each being a call: same memory, same rows collected, same skipped calls, same answers |
| `Parallel.AnyScheduleIsSerial` | src/indexer/processor.rs:359-384 | Every interleaving that runs all tasks to their end gives the memory and the write sets of the serial run |
| `Parallel.FinishIsRunEvents` | src/indexer/processor.rs:801-1105 | A task run alone is the event loop of its market |
| `Parallel.MergeOrderIrrelevant` | src/indexer/processor.rs:382-384 | The sets of distinct markets may be merged in any order |
| `Parallel.MergeTaskSets` | src/indexer/processor.rs:382-384 | The merge loop of the block builds the merge in the given order |
| `Parallel.ParallelApply` | src/indexer/processor.rs:359-384 | Any interleaving and any merge order give the serial memory, and the merged set turns the old tables into the mirror of it |
| `Grouping.PrepareBlock` | src/indexer/processor.rs:114-228 | The grouping loop keeps each market's events in block order and sets aside cancellations and updates without a market |
| `Grouping.UnmappedTells` | src/indexer/processor.rs:114-228 | Set aside are exactly the cancellations and updates without a market, each once and in block order |
| `Grouping.RehydrationsTell` | src/indexer/processor.rs:322-358 | A live block hydrates again just the markets its unmapped events are answered with; a quiet one none |
| `Grouping.SerialIsBlockOrder` | src/indexer/processor.rs:359-384 | Running the groups market by market leads to the memory of the block order |
| `Grouping.LiveBlockIsBlockOrder` | src/indexer/processor.rs:322-384 | The same for a live block whose unmapped cancellations and updates first hydrate every market again: memory is that of the rehydrated markets and then the block order, and the block's one set mirrors it |
| `Grouping.ParallelIsBlockOrder` | src/indexer/processor.rs:359-384 | Grouped and interleaved in any way, merged in any order: memory is that of applying the events one by one in block order, and the tables mirror it |
| `BookOrders.HydratedEvent` | src/indexer/processor.rs:801-1105 | In a hydrated market an event comes down to its book operation and its order operation |
| `BookOrders.EventRefines` | src/indexer/books.rs:301-506 | One well-formed event keeps each level equal to the summed remaining amounts of the hot orders there |
| `BookOrders.TraceRefines` | src/indexer/books.rs:301-506 | Over every well-formed limit-order trace each level equals the summed remaining amounts, no level is empty, the order maps stay coherent and no order is overfilled |
| `BookOrders.EmptyRefines` | src/indexer/books.rs:52-71 | An empty hydrated book with no orders is a starting point of such a trace |
| `Snapshot.ExportBooks` | src/indexer/books.rs:117-159 | The export lists every level and one meta row per shard |
| `Snapshot.ExportHoldings` | src/indexer/index_state.rs:1577-1595 | The export lists every non-zero holding and nothing else |
| `Snapshot.CollectFull` | src/indexer/mod.rs:236-318 | The forced full write is a full replace whose stores are, key by key, what memory holds |
| `Snapshot.LoadLevels` | src/persist/index_state_tables.rs:421-436 | The load returns exactly the rows with a positive stored size |
| `Snapshot.LoadOrders` | src/persist/index_state_tables.rs:395-410 | The load returns exactly the stored orders, sizes cast back |
| `Snapshot.LoadHoldings` | src/persist/index_state_tables.rs:460-474 | The load returns exactly the holdings with a positive stored amount |
| `Snapshot.LoadInto` | src/persist/shared.rs:467-516 | Loading into an empty index leaves the memory that the imports specify |
| `Snapshot.RoundTrip` | src/indexer/mod.rs:236-318 | Full write, load and import give back hot orders with both indexes, sequences, last trades, and every level and holding that can be read back, from any coherent memory and over any tables |
| `Snapshot.MirrorRoundTrip` | src/persist/shared.rs:578-614 | Tables kept block by block restore the same memory as a full write |
| `Snapshot.AmountsSurviveIff` | src/persist/index_state_tables.rs:421-474 | All levels and holdings survive the round trip if and only if every one is below 2^63 |
| `Snapshot.ExportsTyped` | src/indexer/mod.rs:236-318 | A full write set stores under each key a row of its family |
| `Pipeline.WriteIsExact` | src/persist/index_state_write.rs:117-152 | A batch does at write time what its set would do directly if and only if a full replace has seen, or names, every row then present |
| `Pipeline.StepKeepsInv` | src/indexer/pipeline.rs:55-178 | Every step of receive, decode, apply, send, build, write, clone, checkpoint, gated read and snapshot written past the queue keeps queue order, build coverage and durability |
| `Pipeline.DurableIff` | src/persist/index_state_tables.rs:477-495 | Over every run the tables are at each moment the fold of a prefix of the write sets if and only if every full replace written reached all rows then present |
| `Pipeline.PrefixDurability` | src/persist/index_state_write.rs:53-166 | On such a run the tables are the fold of what was written, the head is its last set, its blocks are the first received, and drained stages mean all of them |
| `Pipeline.CopiesArePrefixes` | src/persist/shared.rs:569-575 | All clones and gated reads, taken family by family, are folds of one prefix; the clone the write task makes for block n ends with a set of block n |
| `Epochs.EpochIsCloned` | src/persist/index_state_write.rs:117-152 | A batch of block n taken with epoch clones on, n + 1 a positive multiple of the epoch length: once written, no run releases the gate before the clone, the clone can be made at any moment, and it is exactly the tables that the write left |
| `Epochs.OtherWritesMakeNone` | src/persist/index_state_write.rs:117-152 | After the write of any other batch no run makes a clone before the gate is released, and the clones stay as they are |
| `Epochs.ClonesAtEpochEnds` | src/persist/checkpoint.rs:19-22 | Over every run the clones made by the write task are of blocks n with n + 1 a positive multiple of the epoch length |
| `Epochs.GatedReadReturnsTables` | src/persist/shared.rs:569-575 | Whatever runs beside a gated read, each family can be read once, the read can end exactly when all are read, and it returns the tables as they were when it took the gate |
| `Epochs.QueuesBounded` | src/indexer/mod.rs:43-45 | On every run at most 64 raw and 64 prepared blocks, 32 sets and 32 batches are queued, and a sender waits exactly while the next queue is full |
| `Pipeline.IdleBuildsAreWhole` | src/indexer/mod.rs:206-223 | If every full replace starts its build with nothing in flight, no row is ever missed |
| `Checkpoint.StaleFullReplace` | src/persist/index_state_tables.rs:477-495 | A full replace built behind an unwritten batch leaves a row that the fold does not have: the failing run, for every such pair of sets |
| `Checkpoint.NamedCloneIff` | src/persist/checkpoint.rs:24-45 | The clone a checkpoint names after block n is the fold through n if and only if the tables are at block n when it is made, before the first write of a process too |
| `Checkpoint.IdleCheckpointIsExact` | src/indexer/mod.rs:177-234 | On the idle path of a checkpoint the tables are at its block when the clone is made, whatever else runs meanwhile |
| `Checkpoint.NamedCloneBehind` | src/indexer/mod.rs:206-234 | A checkpoint that clones after its second wait ran out: the clone named after a block is the fold through the block before, for every pair of sets |
| `Checkpoint.SnapshotOvertaken` | src/persist/shared.rs:434-465 | A peer's snapshot written past the queue is overwritten by an older queued set: memory is at the snapshot and the tables at the older block, for every such pair |
| `Checkpoint.ForcedWriteRepairsIff` | src/indexer/mod.rs:662-668 | The forced write that follows leaves exactly memory's rows and head, whatever was written before, if and only if it has seen or names every row then present; a build that started with nothing in flight has |
| `Replay.ChainAlike` | src/indexer/mod.rs:320-370 | Memories that agree on what the store keeps still agree after the same blocks, whatever the node answers for markets that were hydrated |
| `Replay.ChainSound` | src/indexer/processor.rs:801-1105 | Any blocks keep the order maps coherent under derived ids and the books free of empty levels |
| `Recovery.FoldMirrorsIff` | src/persist/index_state_write.rs:53-166 | Sets of blocks in order, with full exports among them that may overtake the set of their own block, lead from any tables to the mirror of memory if and only if every row that differed from memory is named by one of them or one of them is full |
| `Recovery.RestoredAlikeIff` | src/persist/shared.rs:467-516 | Restored memory agrees with the one that was saved if and only if every amount is below 2^63 and every book is hydrated |
| `Restarts.TablesKeepIff` | src/indexer/processor.rs:230-249 | The tables a process leaves mirror memory at their head if and only if every row in which they differed from its memory at the start, as replayed blocks leave no sets, was written again |
| `Restarts.NothingReplayedKeeps` | src/app.rs:76-101 | A process that replayed nothing meets the condition |
| `Restarts.FullFirstKeeps` | src/indexer/mod.rs:236-318 | A process whose first written set is a full one meets the condition |
| `Restarts.RecoveryRestores` | src/indexer/mod.rs:320-370 | Then, at any moment of the run, loading the tables and replaying the stored blocks after their head gives the memory that applied every block, given what RestoredAlikeIff shows to be needed of the memory saved |
| `Restarts.RestartsRestore` | src/app.rs:76-101 | However often a process restarts, its memory is at every start the one that applied each block once, if all before it met the condition |
| `Restarts.RestartLoses` | src/indexer/mod.rs:345-354 | Otherwise it fails: for every store and every replayed block that changes a row, the set of an empty next block is enough, the second restart replays nothing and has the old row |
| `Restarts.RestartLosesOrder` | src/indexer/mod.rs:345-354 | In particular an order created in a replayed block is gone after the second restart |
| `Pending.StepConserves` | src/persist/workers.rs:199-387 | One step of any stage conserves every operation and moves the counter by what it settles |
| `Pending.PendingCounts` | src/persist/shared.rs:212-296 | On every interleaving each submitted operation is in flight or has one fate, and the counter is the number in flight plus the number lost by stopped stages |
| `Pending.IdleMeansDrained` | src/persist/shared.rs:318-327 | The counter is zero if and only if every lane is drained and nothing was lost; then all submitted operations are rejected, failed or written |
| `Pending.LeakNeedsStop` | src/persist/workers.rs:291-304 | Nothing is lost before some stage has stopped, and stopped stages stay stopped |
| `Pending.LeakIsForever` | src/persist/workers.rs:291-304 | An operation lost by a stopped stage keeps the counter above zero for good |
| `Pending.SettledAsWritten` | src/persist/workers.rs:309-387 | The operations of a batch count as written exactly when its write went well and as failed when not, whatever the other stages do before it is settled |
| `Pending.OtherFates` | src/persist/workers.rs:199-258 | Nothing else is ever written; a worker fails only its own operation, and a sender gives up only a queue that is closed, or full and not waited for |
| `Pending.LanesBounded` | src/persist/types.rs:8-18 | On every run a sqlite lane has 4 workers, 64 operations at the ingress, 8 encoded, and batches of 1 to 128; the index lane one worker, 32 operations and 32 batches of one |
| `Calendar.Civil` | src/bars.rs:148-160 | Every day number is the number of exactly one valid date |
| `Calendar.CivilWideIsCivil` | src/bars.rs:148-160 | The civil-day arithmetic computes that date for every day number |
| `Calendar.CivilIsCalendar` | src/bars.rs:148-160 | It is the proleptic Gregorian calendar: day 0 is 1970-01-01 and the next number is the next day |
| `Calendar.CivilOfDays` | src/bars.rs:162-173 | The number of a valid date leads back to the date |
| `Calendar.RoundTripIff` | src/bars.rs:148-173 | With 32-bit years the second function inverts the first if and only if the March-based year fits |
| `Calendar.MonthStartIsGreatest` | src/bars.rs:140-146 | The month start is the greatest first-of-month instant at or before the time |
| `Calendar.MonthStartMonotone` | src/bars.rs:140-146 | Month starts are monotone and idempotent |
| `Calendar.YearFitsIff` | src/bars.rs:148-173 | From 1970 on the year of a day fits 32 bits up to a fixed day |
| `Calendar.CalendarMonthStartIff` | src/bars.rs:140-146 | The code returns the month start if and only if the time is at most 67767976238716799, the last second of the last March-based year below 2^31 |
| `Bars.Bars.OnTrade` | src/bars.rs:302-379 | One trade closes, opens or extends the forming bar of all fourteen intervals |
| `Bars.Bars.CloseExpired` | src/bars.rs:381-412 | A tick closes exactly the forming bars whose bucket is over |
| `Bars.DistinctIntervals` | src/bars.rs:16-19 | The engine keeps 1, 3, 5, 15 and 30 minutes, 1, 2, 4, 8 and 12 hours, 1 and 3 days, the week and the calendar month, each once |
| `Bars.CallsAreRun` | src/bars.rs:302-412 | Any calls over any markets leave under a market and interval what a run of that market's trades and all ticks leaves |
| `Bars.ClosedAreMarked` | src/bars.rs:302-412 | Over any calls every bar handed over is marked closed and stays handed over, and no forming bar is marked |
| `Candles.BucketStartIff` | src/bars.rs:131-138 | The code computes the start of the bucket: always for intervals of a fixed length, for months up to a fixed second and no further |
| `Candles.EngineGroupsIff` | src/bars.rs:302-412 | For any times, closed and forming bars are the bars of the consecutive groups of the trades if and only if no trade comes back to a bucket that a tick has ended |
| `Candles.EngineIsGroupByIff` | src/bars.rs:302-412 | They are, bucket by bucket and in order, exactly first, maximum, minimum, last, saturating volume and count of the trades there if and only if trades never go back a bucket and, after a tick of a later bucket, leave the old one |
| `Candles.StartsOnceIff` | src/bars.rs:302-412 | No start appears twice and all are in time order if and only if trades and ticks come in turn like this |
| `Candles.ClosedOnce` | src/bars.rs:302-412 | Then each start of a market and interval is closed at most once, in increasing order |
| `Candles.OrderedInTurn` | src/bars.rs:191-196 | Times that never step back come in turn, for every interval |
| `Candles.ClosedTwice` | src/bars.rs:302-412 | A clock that steps back: trades at 120, 0 and 120 seconds and a tick at 180 close minute 120 twice, whatever the trade |
| `Candles.RollUpGroups` | src/bars.rs:131-145 | Every interval is the ordered combination of the one-minute bars, even where volume saturates |
| `Candles.EngineRollsUpIff` | src/bars.rs:317-358 | The same for what the engine holds in each of its intervals, for any times, if and only if no trade comes back to an ended bucket of the longer interval |
| `Formatting.FormattedParses` | src/chain/mod.rs:287-321 | What the three printers print reads back as the number, for prices as the saturated product by 100 |
| `Formatting.PrintedShape` | src/chain/mod.rs:287-321 | No leading zeros; amounts have no fraction or all six digits of it, prices drop the zeros at its end |
| `Formatting.TokenAmountInjective` | src/chain/mod.rs:287-295 | Two amounts print alike if and only if they are equal |
| `Formatting.PricePrintsAlike` | src/chain/mod.rs:297-309 | Two prices print alike if and only if they are equal or both past the saturation point |
| `Formatting.PositiveNotZero` | src/indexer/books.rs:576-592 | A level that is present never prints like a removed one |
| `Replica.TopLevels` | src/indexer/books.rs:681-707 | The snapshot lists the best levels first and leaves out only worse ones |
| `Replica.SnapshotCopiesIff` | src/indexer/books.rs:709-719 | A snapshot of full depth is a copy of the book if and only if levels that print alike have one size |
| `Replica.DeltaFollowsIff` | src/indexer/books.rs:554-632 | Applying the delta of a change to a copy gives a copy of the changed book if and only if no other level printed alike has a different size |
| `Replica.ReplicaCorrectIff` | src/indexer/books.rs:554-645 | Every subscriber, whatever part of the deltas it gets, in any order and however often, has seen a gap or has exactly the levels the server had at the number it holds, if and only if each delta before the first silent step follows in this sense |
| `Replica.PrintableFollows` | src/chain/mod.rs:297-309 | Below the saturation point of the printer every change follows |
| `Replica.SilentNumber` | src/indexer/books.rs:285-289 | A hydration or a quiet change takes a number that no message carries |
| `Replica.SilentStepIsSeen` | src/indexer/books.rs:285-289 | A subscriber behind such a step never passes it unnoticed |
| `Replica.UnprintableBreaks` | src/chain/mod.rs:297-309 | Past the printable prices no printed copy can follow two levels of different size |
| `Peer.SelectCatchupPeer` | src/peer/mod.rs:147-156 | The chosen peer is eligible and greatest, the last of several; none is chosen only when none is eligible |
| `Peer.EligibleIff` | src/peer/mod.rs:147-156 | A peer is eligible if and only if it has a checkpoint and is more than the threshold ahead, as integers count |
| `Peer.PeerStore.BlocksAfter` | src/http/routes/peer.rs:57-78 | A page holds the first rows after the given block, in order, from a store that may have grown |
| `Peer.DownloadBlocksUntilEmpty` | src/peer/mod.rs:108-128 | Paging ends and returns every stored row after the block, without a gap, although the store grows |
| `Peer.BufferLive` | src/indexer/mod.rs:530-541 | The buffer keeps the newest 256 blocks in order |
| `Peer.ApplyCatchup` | src/indexer/mod.rs:591-662 | Applied are the peer's blocks and then the buffered blocks of unseen digests; the head is the last one applied |
| `Peer.CatchupIsReplayIff` | src/indexer/mod.rs:591-662 | This applies every later block once and in order if and only if the buffer is empty, or starts no earlier than the snapshot and leaves no gap after the peer's blocks |
| `Peer.CatchupState` | src/indexer/mod.rs:520-668 | Then the state and head are those of a node that applied every block once in order, whatever applying a block does |
| `PaperOi.PaperIndex.UpsertPaperPositionOpen` | src/indexer/index_state.rs:585-614 | Opening adds the notional to the side of its instrument and to the volume, and files the position |
| `PaperOi.PaperIndex.ClosePaperPosition` | src/indexer/index_state.rs:1279-1316 | Closing removes the position and takes its notional off; an unknown position changes nothing |
| `PaperOi.PaperIndex.PaperHouseView` | src/indexer/index_state.rs:1050-1138 | The view's open interest, margin, count and per-instrument exposures, in ascending order, are direct sums over the open positions |
| `PaperOi.OpenConservesIff` | src/indexer/index_state.rs:585-614 | With room, opening keeps the totals equal to the direct sums if and only if it replaces no position of positive notional |
| `PaperOi.FreshOpenConservesIff` | src/indexer/index_state.rs:969-990 | With a fresh id it does so if and only if the total stays below 2^64 |
| `PaperOi.CloseConserves` | src/indexer/index_state.rs:1279-1316 | Closing or liquidating always keeps the totals; the subtraction never saturates |
| `PaperOi.OpenInterestConserved` | src/indexer/index_state.rs:585-621 | Over every lawful trace long and short interest of each instrument are the summed notionals of its open positions |
| `PaperOi.InterestIsDirectSum` | src/indexer/index_state.rs:1100-1134 | Summing the kept totals of a market is summing the notionals of its positions |
| `PaperOi.VolumeIsOpened` | src/indexer/index_state.rs:616-621 | Over any trace the volume of a market is the sum of all notionals opened in it, within 64 bits, and there is none where nothing was opened |
| `PaperOi.OpenIsLatest` | src/indexer/index_state.rs:585-614 | A position is open exactly when the last event about it opened it, with the row of that event |
| `Registry.MarketIndex.UpsertMarket` | src/indexer/index_state.rs:1924-2000 | An upsert fills missing fields from the known market, moves its slug, and binds its addresses by category |
| `Registry.MarketIndex.BindEventSpotLegs` | src/indexer/index_state.rs:2003-2015 | Both legs lose their shells and lead to the event, the no leg last |
| `Registry.MarketIndex.RemoveOrphanSpotShell` | src/indexer/index_state.rs:2017-2029 | Only a spot shell is removed |
| `Registry.MarketIndex.RegisterNamedSpotMarket` | src/indexer/index_state.rs:2059-2099 | A name is recorded, and a shell only where the address leads to no other kind of market |
| `Registry.MarketIndex.EnsureStandaloneSpotMarket` | src/indexer/index_state.rs:2101-2116 | The known reference is returned, or a shell is registered under some known name |
| `Registry.MarketIndex.IndexMarketCreated` | src/indexer/processor.rs:1469-1515 | A new event takes the first slug of its question that no market has |
| `Registry.EventKeepsIff` | src/indexer/index_state.rs:1924-2029 | An event upsert keeps every registry claim if and only if its slug is free or its own |
| `Registry.RegistryIntegrity` | src/indexer/index_state.rs:1920-2116 | Over every lawful trace each address leads to a market, no shell stands at a leg of an event, and slugs and events lead to each other |
| `Registry.LookUpResolves` | src/indexer/index_state.rs:2101-2116 | A lookup of an unknown address resolves if and only if the address is not blank |
| `Registry.RegisterTells` | src/indexer/index_state.rs:2059-2099 | A registration records the trimmed address under the name; unless the address leads to a market of another kind it gets a reference and a shell where it has none, with trimmed name and deployer, its address and no icon; nothing else changes |
| `Registry.UpsertTells` | src/indexer/index_state.rs:1924-2029 | An upsert keeps the known icon, name and slug only where the new market has none; legs lead to "yes" and "no", one shared leg to "no", other addresses to "spot" or "perp"; older slugs of the market lead nowhere; of other markets only shells at the legs go |
| `Registry.NameKeyAlike` | src/indexer/index_state.rs:2066-2066 | Two names share a key if and only if, trimmed, they are the same letters in any case |
| `Text.AddressKeyAlike` | src/indexer/index_state.rs:240-246 | Two addresses share a key if and only if, trimmed, they are the same letters in any case |
| `Text.TrimTells` | src/indexer/index_state.rs:240-246 | Trimming takes all white space off both ends and nothing else |
| `KeyRange.BeforeIffLess` | crates/typed-store/src/rocks/mod.rs:1179-1226 | For keys of one width the bytewise order is the order of the numbers they stand for |
| `KeyRange.BigEndianSaturatingAddOne` | crates/typed-store/src/rocks/mod.rs:2303-2318 | The in-place loop leaves the incremented key |
| `KeyRange.IncrementIsNext` | crates/typed-store/src/rocks/mod.rs:2303-2323 | The incremented key has the same width and the next value unless all bytes are 0xFF, and no key of that width lies between |
| `KeyRange.CreateReadOptionsWithRange` | crates/typed-store/src/rocks/mod.rs:1179-1226 | The read options are those of the range |
| `KeyRange.RangeIsExactIff` | crates/typed-store/src/rocks/mod.rs:1179-1226 | They select exactly the keys of the range if and only if it does not exclude the greatest key below while admitting it above |
| `Slugs.SlugFromQuestion` | src/slug.rs:4-23 | The character loop yields the lower-case words of the question joined by single hyphens, or "event" |
| `Slugs.SlugComesFrom` | src/slug.rs:4-23 | A slug holds exactly the letters and digits of the trimmed question in lower case and in order, side by side exactly where they were so in the question; without any it is "event" |
| `Slugs.SlugOfIsSlug` | src/slug.rs:4-23 | A slug is not empty, is over [a-z0-9-], and has no leading, trailing or doubled hyphen |
| `Slugs.SlugIffFixed` | src/slug.rs:4-23 | A text is its own slug if and only if it has that form; making a slug of a slug changes nothing |
| `Slugs.AllocateUniqueSlug` | src/slug.rs:25-36 | The first free candidate is found after no more tries than there are slugs |
| `Slugs.CandidateInjective` | src/slug.rs:30-33 | Different suffixes give different candidates |
| `Slugs.CandidateTells` | src/slug.rs:30-33 | Later candidates are the base, a hyphen and a number in decimal, counting from 2 |

## Left out

- HTTP and WebSocket routes, sessions, RPC and mempool clients, SQL text, file paths, metrics, timing and store options: input and output.
- Ids of recent trades: a process-wide counter that only numbers the listed trades.
- Callers that pass no write set: every operation collects its rows here, so the mirror says nothing about them. Spot shells of `register_named_spot_market` are not mirrored either.
- The chain node's answers are attached to the events that ask for them, so an answer does not depend on when the question is asked; what the last recorded price is does.
- Families of the store share one key space here; the values of markets and vaults are opaque texts, so the restored vault accounts and market registry are not part of the round trip.
- `normalize_spot_market_key`: keys are taken as normalised already; the registry uses its fallback branch, trimming. UUIDs of version 5 are taken to be injective.
- Slugs.SlugFromQuestion: for ASCII questions only, because trimming and lower-casing are modelled for ASCII; address keys likewise.
- `TOKEN_SCALE` comes from the chain's library, which is not part of this model; it is 10^6 as the six printed fraction digits show.
- Global events (stakes, claims, oracle marks, vaults), user fan-out, quotes and the call from a fill to the candle engine: they touch none of the state proved about here.
- Which market an order event belongs to is resolved in the decode stage, while earlier blocks may still be applied; the resolved market is an input.
- BookOrders.TraceRefines: for hydrated books and limit orders, because trigger orders enter the order index but not the book; events name the resting order's side and price, and sums stay below 2^64.
- Vault holdings as the sum of all fills of a vault: the fill that ends an order moves no holding, as the order is already archived when its user is looked up; `EventHoldings` says which fills count.
- Grouping.ParallelIsBlockOrder: for the order events of a block; global events are applied before the tasks and touch other state, `LiveBlockIsBlockOrder` adds the rehydration.
- Snapshot.LoadInto: orders, last trades, books and holdings; markets and vault accounts are opaque rows here, so their import is left out and the vault accounts are an input.
- Restarts.RecoveryRestores: for the order events of the blocks; recent trades and last fills are not stored and start empty. Markets first seen after the head are hydrated with the answers of the first run, because the model does not relate what the node answers at different times.
- Restarts.RestartsRestore: for processes whose live stages start with the memory of the replay. The hydration of all markets on every connection collects no rows either; it is one more way in which memory differs from the tables, so `TablesKeepIff` covers it, but not the comparison with the chain. A peer's snapshot replaces memory and tables together and is the start of another such series.
- Registry.MarketIndex.IndexMarketCreated: the hydration of both legs after the upsert is left out; it is the one of `EnsureChainHydrated`.
- Checkpoint.IdleCheckpointIsExact: the two waits for idle are the conditions that nothing is in flight at the start and that the forced set, if any, is written before the clone.
- Pipeline.PrefixDurability: assumes that no write, no build and no clone fails; the stage of `Pending` that counts failures has no tables. Shutdown order is not modelled.
- Atomic counters are sequentially consistent here, and `block_num + 1` and the counter do not reach 2^64.
- Times are seconds since 1970 below 2^64; the engine reads them from the system clock, here they are arbitrary.
- Bars: history limits, persistence and publishing of closed bars.
- Replica.ReplicaCorrectIff: for numbers below 2^64 - 1, where the sequence saturates and numbers repeat.
- Peer.CatchupIsReplayIff: for a peer whose store has no holes after the snapshot and a live feed of consecutive blocks; undecodable payloads end the catch-up in the code and are not modelled.
- House profit and loss, queue claims, stakes and the history of open interest: display values computed from other state.
- Registry.RegistryIntegrity: for registrations, lookups and event upserts; upserts of spot and perp markets are modelled in `UpsertMarket` but not in its traces. Token and state texts of markets are dropped.
- The submit-wait registry: a map of one-shot channels, sound for distinct digests only.
