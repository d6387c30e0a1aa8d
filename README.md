# AQL block/row execution core, in Dafny

This project models the pull-based execution framework of ArangoDB's AQL
engine. Data moves through a query plan as *blocks* (`AqlItemBlock`) of rows.
Every pull returns one of three states:

- WAITING: repeat the same call later;
- HASMORE: there may be more;
- DONE: nothing more will come.

It covers four parts:

- **Low-level fetcher** (`BlockFetcher`, module `BlockFetcher`, pure). One
  `getSome(DefaultBatchSize)` on upstream, or on one dependency. The state is
  passed on unchanged, and a returned block is wrapped with the fetcher's
  input registers. Upstream is scripted as a sequence of `(state, block)`
  replies, the way the test mock scripts it. Each call is logged so that
  fetch calls can be counted.
- **Row fetchers** (modules `RowFetcher` and `MultiDependencyFetcher`). A
  row cursor hands out one row per `fetchRow` and pulls the next block only
  when the current one is used up. `FetchRowStep` is that step on values.
  - The class `SingleRowFetcher` runs it in place.
  - The class `MultiDependencySingleRowFetcher` keeps one cursor per
    dependency (`_upstream`).
  - The test traces of `MultiDependencySingleRowFetcherTest.cpp` are proved
    as lemmas.
- **Count executor** (`CountCollectExecutor`, module `CountCollect`). A
  class with a `count` field. `ProduceRow` pulls and counts every input row,
  then writes exactly one row holding the count.
- **Execution-block driver** (`ExecutionBlockImpl<Executor>`). Module
  `ExecutionBlock` specifies it on values: the `getSome` state machine,
  `requestWrappedBlock` with its one-slot pass-through queue, `skipSome`,
  and the item block manager as a pool of live block ids. Module
  `ExecutionBlockImplementation` holds the class `ExecutionBlockImpl`. Its
  methods update the fields in place, and each is proved equal to the
  value-level function.

The executor a driver runs is scripted. Each `produceRow` answers with the
next `ExecStep(state, row, stats)`, and an executor whose script is used up
answers DONE with no row.

## Model

| member | source | states |
|---|---|---|
| AqlTypes.RequestBlock | arangod/Aql/ExecutionBlockImpl.cpp:254 | the manager lends a block of the requested size and register count with no rows, under an id not live before, and that id becomes live |
| AqlTypes.ReturnBlock | arangod/Aql/ExecutionBlockImpl.cpp:70 | a returned block's id is no longer live; nothing else changes in the live set |
| BlockFetcher.GetSome | arangod/Aql/BlockFetcher.cpp:30 | upstream answers its next scripted reply, or DONE with no block once the script is used up; the call is logged with the requested row count |
| BlockFetcher.FetchBlock | arangod/Aql/BlockFetcher.cpp:27-37 | the state is upstream's, unchanged; a shell is returned exactly when upstream returned a block, and it wraps that block with the fetcher's input registers; `DefaultBatchSize` rows are requested |
| BlockFetcher.FetchBlockConservesRows | arangod/Aql/BlockFetcher.cpp:27-37 | a fetch loses and invents no row: upstream's rows are the rows of the fetched block followed by the rows still upstream |
| BlockFetcher.FetchBlockKeepsContract | arangod/Aql/BlockFetcher.cpp:31-37 | WAITING brings no shell, HASMORE brings one, a fetched block is never empty, after DONE upstream has nothing left, and the remaining upstream keeps its contract |
| BlockFetcher.FetchBlockOfDependency | arangod/Aql/BlockFetcher.cpp:40-53 | requires an index below the number of dependencies; only that dependency is pulled, with `DefaultBatchSize`; its state is passed through; a shell exactly when it returned a block; every other dependency is untouched |
| BlockFetcher.FetchBlockOfDependencyIsFetchBlock | arangod/Aql/BlockFetcher.cpp:40-53 | pulling from dependency i gives the same state and shell as `fetchBlock` on that dependency alone, and changes only that dependency |
| RowFetcher.FetchRowStep | arangod/Aql/MultiDependencySingleRowFetcher.h:59-76 | `fetchRow` on values: WAITING carries no row and leaves the cursor as it was; HASMORE carries a row; no upstream call while the current block still has rows |
| RowFetcher.EmitRow | arangod/Aql/MultiDependencySingleRowFetcher.h:72-74 | reading from a block at hand, or from no block, never waits and never calls upstream; a row exactly when there is a block |
| RowFetcher.FetchRowStepPairing | arangod/Aql/MultiDependencySingleRowFetcher.h:64-75 | WAITING never carries a row, HASMORE always does, and the cursor stays usable after every call |
| RowFetcher.FetchRowStepDelivers | arangod/Aql/MultiDependencySingleRowFetcher.h:41-48 | rows come out in order, none lost and none repeated; WAITING leaves the cursor exactly as it was; DONE with no row means nothing was pending; after DONE nothing is pending; a delivered row is the one just passed in the block the cursor still holds, so it stays valid until the next call |
| RowFetcher.FetchedRowDelivers | arangod/Aql/MultiDependencySingleRowFetcher.h:59-75 | the same guarantees for a call that has to fetch a new block: the row, if any, is the first row of the fetched block |
| RowFetcher.EmitRowDelivers | arangod/Aql/MultiDependencySingleRowFetcher.h:72-74 | reading from the current block delivers its next row; the block's last row carries DONE exactly when upstream sent DONE with that block; with no block, DONE and no row |
| RowFetcher.FetchRowStepFetchCount | tests/Aql/MultiDependencySingleRowFetcherTest.cpp:77-78 | a call makes exactly one upstream fetch when the current block is used up, and none otherwise |
| RowFetcher.FetchRowStepWaitsOnlyForUpstream | arangod/Aql/MultiDependencySingleRowFetcher.h:66 | the row fetcher answers WAITING only when upstream answered WAITING; an upstream that never waits keeps never waiting |
| RowFetcher.Run | arangod/Aql/MultiDependencySingleRowFetcher.h:76 | any number of successive calls leaves the cursor usable |
| RowFetcher.RunAppend | arangod/Aql/MultiDependencySingleRowFetcher.h:76 | running n + m calls is running n calls and then m more |
| RowFetcher.DrainBlock | arangod/Aql/MultiDependencySingleRowFetcher.h:72-74 | the rest of the current block comes out row by row, in order, with no upstream fetch |
| RowFetcher.BlockDelivery | tests/Aql/MultiDependencySingleRowFetcherTest.cpp:238-262 | a block from upstream is fetched with one upstream call and delivered completely: HASMORE for every row but the last, which carries upstream's state |
| RowFetcher.WaitDelivery | tests/Aql/MultiDependencySingleRowFetcherTest.cpp:88-91 | an upstream WAITING is reported as WAITING with no row and moves only the upstream script |
| RowFetcher.WaitThenBlock | tests/Aql/MultiDependencySingleRowFetcherTest.cpp:284-294 | a WAITING ahead of a block adds exactly one WAITING result and one upstream fetch before the block's rows |
| RowFetcher.WaitedDelivery | tests/Aql/MultiDependencySingleRowFetcherTest.cpp:270-312 | blocks that each follow a WAITING come out in upstream order; each WAITING is reported once; there are two fetches per block; the cursor ends at the end of the last block, with its state |
| RowFetcher.DoneDelivery | tests/Aql/MultiDependencySingleRowFetcherTest.cpp:341-343 | DONE without a block ends the stream with DONE and no row |
| RowFetcher.SingleRowFetcher.constructor | arangod/Aql/MultiDependencySingleRowFetcher.h:51 | a new fetcher holds no block and has its upstream and input registers |
| RowFetcher.SingleRowFetcher.FetchRow | arangod/Aql/MultiDependencySingleRowFetcher.h:59-76 | `fetchRow` updates block, index, state and upstream in place exactly as `FetchRowStep` does on values |
| MultiDependencyFetcher.FetchForDependency | arangod/Aql/MultiDependencySingleRowFetcher.h:81-89 | a fetch for one dependency moves only that dependency's cursor and upstream; every other index is untouched |
| MultiDependencyFetcher.FanInIndependence | arangod/Aql/MultiDependencySingleRowFetcher.h:81-89 | however the calls for different dependencies interleave, dependency a sees exactly the results it would have seen if fetched alone, as often as it was asked |
| MultiDependencyFetcher.RunFanIn | arangod/Aql/MultiDependencySingleRowFetcher.h:76 | a sequence of `fetchRowForDependency` calls gives one result per call, tagged with the dependency it was made for |
| MultiDependencyFetcher.SingleDependencyRun | tests/Aql/MultiDependencySingleRowFetcherTest.cpp:63-79 | with one dependency, n calls of `fetchRowForDependency(0)` give exactly the trace of n row fetcher steps, so the scenario lemmas below are the test's calls |
| MultiDependencyFetcher.MultiDependencySingleRowFetcher.constructor | arangod/Aql/MultiDependencySingleRowFetcher.h:51 | one fresh cursor per dependency |
| MultiDependencyFetcher.MultiDependencySingleRowFetcher.FetchRowForDependency | arangod/Aql/MultiDependencySingleRowFetcher.h:76 | `fetchRowForDependency(depIndex)` updates the cursor vector and the dependencies in place exactly as `FetchForDependency` does |
| MultiDependencyFetcher.ScenarioNoBlocks | tests/Aql/MultiDependencySingleRowFetcherTest.cpp:63-79 | no blocks upstream and no waiting: DONE with no row, after one fetch call |
| MultiDependencyFetcher.ScenarioNoBlocksWaiting | tests/Aql/MultiDependencySingleRowFetcherTest.cpp:81-103 | upstream waits once: WAITING with no row, then DONE with no row, after two fetch calls |
| MultiDependencyFetcher.TestRows | tests/Aql/MultiDependencySingleRowFetcherTest.cpp:232-236 | the rows of the three test blocks [1,2,3], [4,5], [6] come out as rows 1 to 6, each HASMORE but the last |
| MultiDependencyFetcher.ScenarioMultipleBlocks | tests/Aql/MultiDependencySingleRowFetcherTest.cpp:238-267 | blocks [1,2,3], [4,5], [6], the last sent with DONE: rows 1 to 5 with HASMORE, row 6 with DONE, three fetch calls |
| MultiDependencyFetcher.TestBlocksWaited | tests/Aql/MultiDependencySingleRowFetcherTest.cpp:271-276 | the test blocks, each announced by a WAITING, are the scripted replies of the test, and nine calls report them |
| MultiDependencyFetcher.TestBlocksTrace | tests/Aql/MultiDependencySingleRowFetcherTest.cpp:283-306 | those replies are reported with exactly one WAITING before rows 1, 4 and 6 |
| MultiDependencyFetcher.ScenarioMultipleBlocksWaiting | tests/Aql/MultiDependencySingleRowFetcherTest.cpp:270-312 | with a WAITING before each block: exactly one WAITING before rows 1, 4 and 6, then row 6 with DONE, six fetch calls |
| MultiDependencyFetcher.ScenarioDoneAfterLastBlock | tests/Aql/MultiDependencySingleRowFetcherTest.cpp:315-349 | DONE sent only afterwards, without a block: all six rows with HASMORE, then DONE with no row, seven fetch calls |
| CountCollect.DriverConfig | arangod/Aql/CountCollectExecutor.h:74-76 | the count executor does not allow pass-through, so its driver creates no pass-through callback; its output register count is the one in its infos |
| CountCollect.DriverConfigAcceptsAnyUpstream | arangod/Aql/CountCollectExecutor.h:74-76 | a fresh block over the count executor, which reuses no input block, may be built on any well-behaved upstream and any valid pool, whatever register count the upstream's blocks carry |
| CountCollect.CountCollectExecutorInfos.GetOutputRegisterId | arangod/Aql/CountCollectExecutor.h:61 | the output register is the collect register the infos were built with |
| CountCollect.CountRow | arangod/Aql/CountCollectExecutor.h:51-64 | the output row holds the count in the collect register supplied at construction (`getOutputRegisterId`) and nothing else |
| CountCollect.CountCollectExecutor.constructor | arangod/Aql/CountCollectExecutor.h:84 | the executor starts at count 0 over its single-row fetcher and infos |
| CountCollect.CountCollectExecutor.IncrCount | arangod/Aql/CountCollectExecutor.h:94 | the count grows by exactly one, and nothing else is modified |
| CountCollect.CountCollectExecutor.GetCount | arangod/Aql/CountCollectExecutor.h:95 | returns the current count and changes nothing |
| CountCollect.CountCollectExecutor.ProduceRow | arangod/Aql/CountCollectExecutor.h:87-92 | never HASMORE; exactly one row, and only with DONE; that row holds the number of rows counted over all calls, the counter ends at that number, and nothing is left upstream; on WAITING no row is written and the count plus the rows still to come is unchanged, so the next call resumes; with an upstream that never waits the answer is DONE |
| CountCollect.CountOfNoRows | arangod/Aql/CountCollectExecutor.h:87-92 | over an upstream with no rows the executor still writes one row, holding the count 0, with DONE |
| ExecutionBlock.NextStep | arangod/Aql/ExecutionBlockImpl.cpp:119 | an executor whose script is used up answers DONE |
| ExecutionBlock.RestSteps | arangod/Aql/ExecutionBlockImpl.cpp:119 | each `produceRow` consumes one answer of the script |
| ExecutionBlock.Written | arangod/Aql/ExecutionBlockImpl.cpp:123-125 | one `produceRow` commits at most one row |
| ExecutionBlock.Produced | arangod/Aql/ExecutionBlockImpl.cpp:118-125 | a run of calls commits at most one row per call |
| ExecutionBlock.ProducedAppend | arangod/Aql/ExecutionBlockImpl.cpp:118-125 | the rows and statistics of a run split in two are those of the first part followed by those of the second |
| ExecutionBlock.CreatePassThroughCallback | arangod/Aql/ExecutionBlockImpl.cpp:291-301 | a callback exactly when the executor allows block pass-through |
| ExecutionBlock.Fill | arangod/Aql/ExecutionBlockImpl.cpp:118-143 | the `while (!isFull())` loop keeps the batch it fills and stops with HASMORE only once the batch is full |
| ExecutionBlock.StealBlock | arangod/Aql/ExecutionBlockImpl.cpp:136 | the stolen batch keeps its id and register count, and holds exactly the rows written, as many as its size |
| ExecutionBlock.Prefetch | arangod/Aql/ExecutionBlockImpl.cpp:262 | one pull from upstream: its state is upstream's; with pass-through a block that came back (with HASMORE or with DONE) is queued, and it is the only queued block; WAITING queues nothing; nothing else changes |
| ExecutionBlock.RequestWrapped | arangod/Aql/ExecutionBlockImpl.cpp:251-289 | corrected (see Findings 1 and 3): `requestWrappedBlock` keeps the driver state consistent: the queue holds at most one block and the batch is never overfilled |
| ExecutionBlock.RequestWrappedAsWritten | arangod/Aql/ExecutionBlockImpl.cpp:251-289 | `requestWrappedBlock` as written, with the manager request up front and any DONE of the prefetch answered without a batch, also keeps the driver state consistent |
| ExecutionBlock.RequestWrappedContract | arangod/Aql/ExecutionBlockImpl.cpp:251-289 | a batch exactly on HASMORE. With pass-through: the queue is left empty; the batch is the queued block, or else the block a single prefetch brought, also when it came with DONE; a prefetch without a block has its WAITING or DONE returned with no batch; the batch has the requested register count; nothing is taken from the manager. Without: a fresh block of the requested shape, the only block the manager lends |
| ExecutionBlock.RequestWrappedAsWrittenLeaks | arangod/Aql/ExecutionBlockImpl.cpp:254-278 | as written, every pass-through call (including an early WAITING or DONE) leaves one more block lent out; apart from that, and from a block sent with DONE, it agrees with `RequestWrapped` |
| ExecutionBlock.RequestWrappedAsWrittenLeakExample | arangod/Aql/ExecutionBlockImpl.cpp:254-278 | a concrete call whose requested block 7 stays lent out, neither the batch handed back nor held by the driver |
| ExecutionBlock.RequestWrappedAsWrittenStrands | arangod/Aql/ExecutionBlockImpl.cpp:261-265 | when the prefetch brings a block together with DONE, the code as written answers DONE with no batch and leaves that block in the queue; the corrected call makes it the batch with HASMORE and empties the queue |
| ExecutionBlock.FillContract | arangod/Aql/ExecutionBlockImpl.cpp:116-125 | the loop commits exactly the rows the executor wrote, in order, after those already in the batch, never more than the batch holds; it adds exactly the statistics of the answers it consumed; it ends HASMORE only with a full batch |
| ExecutionBlock.FillShape | arangod/Aql/ExecutionBlockImpl.cpp:118-129 | the loop consumes a prefix of the executor's answers, keeps the batch, never overfills it, and HASMORE means full |
| ExecutionBlock.FillRows | arangod/Aql/ExecutionBlockImpl.cpp:119-125 | the committed rows and the statistics are exactly those of the consumed answers |
| ExecutionBlock.FillWaitConsumes | arangod/Aql/ExecutionBlockImpl.cpp:127-129 | a WAITING from the loop always consumed at least one executor answer |
| ExecutionBlock.WaitingIsTransparent | arangod/Aql/ExecutionBlockImpl.cpp:127-129 | repeating the call after every WAITING resumes the same open batch, and ends with the same state, batch, statistics and unused answers as an executor that never waited |
| ExecutionBlock.AwakeStep | arangod/Aql/ExecutionBlockImpl.cpp:118-131 | one loop turn of the executor that never waited |
| ExecutionBlock.ResumedStep | arangod/Aql/ExecutionBlockImpl.cpp:127-129 | one loop turn other than DONE, as the caller that repeats after WAITING sees it |
| ExecutionBlock.Continue | arangod/Aql/ExecutionBlockImpl.cpp:116-152 | corrected (see Finding 2; `ContinueAsWritten` is the code as written): after the loop the driver state is still consistent (the batch is never overfilled, the queue holds at most one block) |
| ExecutionBlock.GetSomeSpec | arangod/Aql/ExecutionBlockImpl.cpp:82-153 | corrected `getSomeWithoutTrace` (Findings 1 to 3; `GetSomeAsWritten` and `RequestWrappedAsWritten` are the code as written) keeps the driver state consistent |
| ExecutionBlock.GetSomePairing | arangod/Aql/ExecutionBlockImpl.cpp:96-152 | if no batch can be obtained, that state is returned with no block and no batch open; WAITING returns no block, and keeps the batch open unless the request for a batch itself waited; a batch stays open only on WAITING; HASMORE returns a non-empty block; DONE closes the batch; no empty block is ever returned |
| ExecutionBlock.GetSomeConservesRows | arangod/Aql/ExecutionBlockImpl.cpp:118-152 | the batch, kept or returned, holds the rows it held before followed by the rows the executor wrote during the call, in order; the engine statistics grow by exactly what the executor reported |
| ExecutionBlock.GetSomeRespectsAtMost | arangod/Aql/ExecutionBlockImpl.cpp:145-152 | with a fresh batch from the manager (no pass-through), or a retry with the same `atMost` as the call that opened the batch, a returned block has at most `atMost` rows, exactly `atMost` on HASMORE, and a batch kept on WAITING has room for `atMost`; with a fresh pass-through batch the bound is the size of the input block that became the batch |
| ExecutionBlock.GetSomeNoLeak | arangod/Aql/ExecutionBlockImpl.cpp:96-152 | every block the manager lends during a call is either the open batch or the block returned |
| ExecutionBlock.GetSomeAsWritten | arangod/Aql/ExecutionBlockImpl.cpp:82-153 | `getSomeWithoutTrace` with the loop epilogue as written (batch from the corrected `RequestWrapped`): WAITING hands back no block, and once a batch is open every other answer hands one back, however many rows it holds |
| ExecutionBlock.ContinueAsWritten | arangod/Aql/ExecutionBlockImpl.cpp:127-152 | as written, after the loop every answer but WAITING hands back the open batch and closes it; WAITING keeps it |
| ExecutionBlock.GetSomeAsWrittenEmptyBlock | arangod/Aql/ExecutionBlockImpl.cpp:131-142 | an executor that is DONE at once: as written, an empty block is returned with DONE; the corrected driver returns none and gives the batch back |
| ExecutionBlock.GetSomeAsWrittenAgrees | arangod/Aql/ExecutionBlockImpl.cpp:131-142 | the code as written and the corrected driver differ only by that empty block on DONE |
| ExecutionBlock.SkipSomeSpec | arangod/Aql/ExecutionBlockImpl.cpp:156-172 | `skipSome` over the corrected `getSome` keeps the driver state consistent |
| ExecutionBlock.SkipSomeContract | arangod/Aql/ExecutionBlockImpl.cpp:156-172 | returns the state of the `getSome` beneath it; skips exactly that block's rows, or 0 with no block; 0 on WAITING, at least one on HASMORE; the block goes back to the manager, so none is kept but the open batch; at most `atMost` under the conditions of `GetSomeRespectsAtMost` |
| ExecutionBlockImplementation.Restrict | arangod/Aql/ExecutionBlockImpl.cpp:233-234 | a sliced row keeps exactly the registers to keep, with their values |
| ExecutionBlockImplementation.IdInputBlock | arangod/Aql/ExecutionBlockImpl.cpp:231-238 | the injected block is row `pos` of `items` restricted to the registers to keep, or without `items` a one-row block with the output register count; either way a new block lent by the manager |
| ExecutionBlockImplementation.ExecutionBlockImpl.constructor | arangod/Aql/ExecutionBlockImpl.cpp:51-63 | no open batch, an empty pass-through queue |
| ExecutionBlockImplementation.ExecutionBlockImpl.PushPassThroughBlock | arangod/Aql/ExecutionBlockImpl.cpp:294-296 | the block is appended to the queue; nothing else changes |
| ExecutionBlockImplementation.ExecutionBlockImpl.PrefetchBlock | arangod/Aql/ExecutionBlockImpl.cpp:262 | the prefetch, in place, as `Prefetch` does it on values |
| ExecutionBlockImplementation.ExecutionBlockImpl.RequestWrappedBlock | arangod/Aql/ExecutionBlockImpl.cpp:251-289 | the corrected `requestWrappedBlock`, in place, as `RequestWrapped` does it |
| ExecutionBlockImplementation.ExecutionBlockImpl.ProduceRow | arangod/Aql/ExecutionBlockImpl.cpp:119 | the executor's next answer is taken; nothing else changes |
| ExecutionBlockImplementation.ExecutionBlockImpl.GetSome | arangod/Aql/ExecutionBlockImpl.cpp:82-153 | corrected `getSomeWithoutTrace` in place (`GetSomeAsWritten` is the code as written): state, block and new fields are exactly `GetSomeSpec` |
| ExecutionBlockImplementation.ExecutionBlockImpl.FillLoop | arangod/Aql/ExecutionBlockImpl.cpp:118-143 | the `while (!isFull())` loop, in place, ends exactly as `Fill` says |
| ExecutionBlockImplementation.ExecutionBlockImpl.FillBatch | arangod/Aql/ExecutionBlockImpl.cpp:116-152 | corrected epilogue of the loop (`ContinueAsWritten` is the code as written): the batch is kept on WAITING, handed on otherwise, and given back to the manager on DONE with no row, as `Continue` says |
| ExecutionBlockImplementation.ExecutionBlockImpl.SkipSome | arangod/Aql/ExecutionBlockImpl.cpp:156-172 | `skipSome` over the corrected `getSome`, in place: exactly `SkipSomeSpec` |
| ExecutionBlockImplementation.ExecutionBlockImpl.Destroy | arangod/Aql/ExecutionBlockImpl.cpp:65-73 | an open batch is given back to the manager; nothing else changes |
| ExecutionBlockImplementation.ExecutionBlockImpl.ResetRowFetcher | arangod/Aql/ExecutionBlockImpl.cpp:227-229 | re-creating the row fetcher gives its injected block back to the manager; nothing else changes |
| ExecutionBlockImplementation.ExecutionBlockImpl.InitializeCursor | arangod/Aql/ExecutionBlockImpl.cpp:188-214 | fresh fetchers and executor; the answer is the upstream re-initialisation's state; the open batch and the queue are kept |
| ExecutionBlockImplementation.ExecutionBlockImpl.InitializeCursorId | arangod/Aql/ExecutionBlockImpl.cpp:216-249 | as above, and the new row fetcher is given `IdInputBlock` wrapped with the input registers |

## Left out

- `SingleRowFetcher.cpp`, `MultiDependencySingleRowFetcher.cpp`, `CountCollectExecutor.cpp`, `OutputAqlItemRow`, `AqlItemBlock`, `ItemBlockManager` and `BlockFetcher::prefetchBlock` are not part of this model. Their behaviour comes from the contracts in the headers and from the test traces. `fetchRow` in particular is reconstructed from the contract at `MultiDependencySingleRowFetcher.h:59-75`.
- ExecutionBlock.Prefetch: `BlockFetcher::prefetchBlock` is not part of this model. It is reconstructed from its use at `ExecutionBlockImpl.cpp:257-265` and from the callback at `ExecutionBlockImpl.cpp:291-301`: one pull from upstream, with any block that came back handed to the pass-through callback. Upstream replies are those any execution block gives (WAITING without a block, HASMORE with one, DONE with or without its last block). The prefetch is taken to return upstream's own state even when it queued a block; a `prefetchBlock` that answered HASMORE whenever it pushed a block (which `ExecutionBlockImpl.cpp:266-268` would also fit) would make Finding 3 disappear, so that finding depends on this reading. Upstream blocks are required to carry the output register count only when the executor passes blocks through; a non-pass-through executor such as the count executor may read narrower input blocks.
- ExecutionBlock.StealBlock: `stealBlock` is taken to shrink the batch to the rows written and never to return null. The empty-block finding depends on that.
- ExecutionBlockImplementation.ExecutionBlockImpl.InitializeCursor: the answer of `ExecutionBlock::initializeCursor` (upstream re-initialisation, not shown) is a parameter. The upstream's own reply script is kept as it was: what upstream sends after being re-initialised is the rest of the same script, not a fresh one.
- The fresh executor that `initializeCursor` builds is given as a new script. The placement-new destroy/construct steps are modelled as replacing the fetcher, row fetcher and executor.
- Concrete executors other than the count executor (Calculation, Filter, Sort, Id, …) are a scripted sequence of `produceRow` answers.
- CountCollect.CountCollectExecutor.ProduceRow: copying the input registers into the output row is not modelled. The row holds only the count. The per-call statistics (`NoStats`) are omitted.
- The `TRI_IF_FAILURE` fault-injection hooks and the `traceGetSome*`/`traceSkipSome*` calls are left out; they are debugging and logging only.
- `shared_ptr` reference counting of block shells is left out. Pass-through is a single-owner move.
- `AqlValue` cell contents are plain integers.
- Engine statistics are an unbounded integer sum.
- `size_t` counts (`_count`, row counts) are unbounded naturals. Overflow is not modelled.
- ItemBlockManager memory accounting is reduced to the set of live block ids. Blocks that upstream sends carry ids the model does not tie to the manager's: when a pass-through batch is returned (`getSome` finishing with no rows, `skipSome` after its `getSome`), its id is removed from the live set, which is harmless only if upstream ids never coincide with ids this block's pool has lent. The model does not require that disjointness; the leak lemmas speak of the ids this pool lent.
- `items->slice` is modelled as a block requested from the manager.
- `initializeCursor` leaves `_outputItemRow` untouched (`ExecutionBlockImpl.cpp:188-214`), so a batch left open by WAITING survives re-initialisation; the model keeps it.
- `fetchBlock` passes on whatever block upstream returns, including one sent with DONE (`BlockFetcher.cpp:31-37`), and the fetcher tests script such replies; the model does the same.
- ExecutionBlock.GetSomeRespectsAtMost: with pass-through a fresh batch is the input block itself, whose size the model does not tie to `atMost` (`prefetchBlock` takes no `atMost`, and how many rows upstream sends is not part of this model). The bound `numRowsWritten() == atMost` asserted at `ExecutionBlockImpl.cpp:146` is therefore proved only for a batch from the manager or a retried batch of `atMost` rows; for a fresh pass-through batch the lemma proves the bound by the input block's size instead.
- `CountCollectExecutor::Properties::preservesOrder` (`CountCollectExecutor.h:73`) is not used by any modelled operation and is left out.
- MultiDependencyFetcher.SingleDependencyRun: the number of upstream fetch calls of the scenarios is stated over the row cursor run, not carried through the fan-in fetcher.

## Findings

| source | as written | input that shows it | evidently intended | confidence | as-written member | corrected member |
|---|---|---|---|---|---|---|
| arangod/Aql/ExecutionBlockImpl.cpp:254 | `requestBlock` is called before the pass-through branch. With pass-through the block is never wrapped, returned or stored, and likewise on the early WAITING/DONE return. | pass-through executor with one queued block, manager with live {3} and next id 7: after the call block 7 is still lent out and nobody holds it | request the block only in the non-pass-through branch, so every lent block is the open batch or the block handed back | not executed | ExecutionBlock.RequestWrappedAsWrittenLeakExample | ExecutionBlock.GetSomeNoLeak |
| arangod/Aql/ExecutionBlockImpl.cpp:131-142 | on DONE the batch is stolen and returned even when no row was written to it | non-pass-through executor answering DONE with no row at once, `atMost` 10: `getSome` returns an empty block with DONE | with no row written, return no block and give the batch back to the manager, because empty blocks are not allowed | not executed | ExecutionBlock.GetSomeAsWrittenEmptyBlock | ExecutionBlock.GetSomePairing |
| arangod/Aql/ExecutionBlockImpl.cpp:261-265 | after `prefetchBlock`, any DONE is answered with no batch, although the prefetch may already have pushed a block that upstream sent together with DONE | pass-through executor, empty queue, upstream's next reply DONE with a one-row block: `requestWrappedBlock` answers DONE with no batch and the block stays queued; `getSome` answers DONE, and a caller that stops at DONE never sees that row (this rests on `prefetchBlock` returning upstream's own DONE after it pushed the block; `prefetchBlock` is not part of this model) | return without a batch only when nothing was queued (WAITING, or DONE without a block), and otherwise make the queued block the batch | not executed | ExecutionBlock.RequestWrappedAsWrittenStrands | ExecutionBlock.RequestWrappedContract |
