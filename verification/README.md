# Market data engine: a verified model

This project models, in Dafny, an engine that ingests one day of an exchange's order-by-order
feed, hands the decoded messages from an ingest thread to an egress thread, and rebuilds order
books and trade statistics from them.  It proves what that pipeline is for:

- **The book.**  The two price-level maps are an index that is maintained beside the live orders.
  For every stream of messages - IDs reused, targets unknown, volumes zero - the volume of a level is
  the summed volume of the live orders there plus a *phantom* term, the volume of orders overwritten
  while live.  This holds throughout a stream if and only if no message overflows the level it adds to.
  The levels are exactly the aggregation of the orders if and only if no live order with volume was ever
  written over; without ID reuse the top of book is the extreme live price with its summed volume.
- **What is live** is read off the history of its ID: an order is live if and only if it was put there and has
  since been neither deleted, nor replaced away, nor executed in full; and it is what was last set, less what
  was executed since.  Each message has exactly its effect on orders and levels, and none on other symbols.
- **Failures.**  The book-build counter is split exactly into messages that name an order that is not
  live, and messages whose live order has no level, which needs a zero volume.  With positive volumes
  it is exactly the first number, also under ID collisions.
- **The trade statistics.**  Open, high, low, close and volume are folded in on the hot path, rebuilt on
  cancels and patched by a signed difference on volume corrections.  All three forms agree with a
  declarative reading of the live trades, on every run of the order book; and on a run of the stand-alone
  ledger up to a *drift*, which is computed exactly and is moved only by correcting a cancelled trade.
- **The trade log** holds one record for each recorded trade, in order, with the volume last given for it, and
  cancelled if and only if some operation cancelled its ID while it was the last trade under it.
- **Two ledgers, one behaviour.**  The trade half of a symbol's book runs in lockstep with a ledger of its own.
- **Symbols are independent**, so any two interleavings of the same per-symbol streams agree.
- **The hand-off.**  A step system with a mutex, a condition variable whose notification comes after the
  unlock, stop tokens and spurious wake-ups: nothing is lost, doubled or reordered under any schedule; a
  `Join` delivers everything; a destructor called at any moment drops at most one emitted message, and can
  drop one if and only if ingest is about to lock the mutex with it when the stop request is set; no wake-up
  is lost; no deadlock; and `Join` and the destructor return, within the work there is when they are called.
- **The pipeline.**  From any lines, malformed ones included, through parser, queue and any schedule to the
  callback: exactly what the parses emitted is delivered, and of lines that carry an event of any of the 14
  types, exactly that event; an order book fed with it holds the run of those events.
- **The decoder.**  The lazy comma index refines splitting, nested layouts read their own fields at
  their own offsets, and decoding undoes encoding for exactly the values a line can carry.  Which texts a
  field accepts, and which lines parse, is stated as an equivalence, with the error of each rejection.
- **Freezing a quote** at a reference time is point-in-time correct for messages in time order; whatever the
  top of book is, exactly when no later book-moving message is stamped at or before the reference time.

## Layout

| files | contents |
|---|---|
| `Words`, `MapSum`, `PriceLevels`, `PerSymbol` | 64-bit words, sums over maps, ordered level maps, per-symbol machines |
| `DailyStatistics`, `Ledger`, `TradeHistory`, `TradeLedger` | the fold over a trade log, a ledger as a value, its log from its operations, the ledger classes |
| `Messages`, `DisplayBook`, `TradeTape`, `Feed`, `OrderBook` | the two halves of a symbol's book and the whole feed as values, the order-book classes |
| `OrderHistory`, `Conservation`, `TopOfBook`, `BookAlgebra`, `BboValidation` | theorems about the book, and its use in the quote validation |
| `MessageQueue`, `HandOff`, `Engine` | the queue, the step system of the threads, the two loops and the whole pipeline |
| `Csv`, `Numbers`, `Schema`, `Sequence`, `NyseParser` | the decode path |

Classes hold the fields the source updates in place.  Each of their methods is proved equal to a function
on values (`NextBook`, `Ledger.Apply`, `Record`, `Populate`, `Parse`, ...), and the theorems are about
runs of those functions.

Modelling choices: prices are integer ticks, ordered and compared but never computed with; unsigned 64-bit
arithmetic wraps explicitly (`Wrap`), and signed arithmetic of volume corrections is two's complement, with
the exact condition under which C++ would not overflow stated beside it.  An ordered map is a sorted list of
rungs, so that `begin()` is a claim about the extremum.

## Where the code and its documentation differ

The model follows the code.

- `README.md:54` says the order book owns a `TradeLedger`.  The code keeps its own log and two ID maps
  (`include/model/order_book.hpp:97-103`).  Both are modelled; `TapeRunsLikeLedger` says in what sense
  the sentence is true.
- `include/model/order_book.hpp:61-63` counts "removing more resting volume than is at a price level" as
  a failure.  Barring overflow that comparison never fails; only a missing level does (`FailsIff`).
- `README.md:83` says the counter stays at 0 for well-formed input.  Zero-volume orders break that
  (`ZeroVolumesMiscount`).
- `include/model/trade_ledger.hpp:46-50`: a replacement reports failure also when the old trade was
  already cancelled.
- `include/model/trade_ledger.hpp:39-42`: a volume correction of a cancelled trade is accepted, and
  corrupts the total until the next rebuild (`CancelledCorrectionDrifts`, `StatsAreFoldIff`).
- `include/queue.hpp:22-24`: after a stop request `WaitPop` still hands out messages while there are any.
- `include/engine.hpp:61-64` promises a drained queue for `Join` only.  The destructor can leave one
  emitted message behind, and never more (`DestructorLosesAtMostOne`); `DestructorLosesIff` says when.

## Model

| member | source | states |
|---|---|---|
| PriceLevels.AddAtSpec | src/model/order_book.cpp:67-74 | adding changes the volume at its price alone, by the volume modulo 2^64, and keeps the map sorted |
| PriceLevels.TakeAtSpec | src/model/order_book.cpp:76-99 | taking succeeds if and only if the level exists and holds enough; it changes that price alone, erases it exactly at 0, and keeps the map sorted |
| PriceLevels.FirstIsBest | src/model/order_book.cpp:326-333 | no price of a level map comes before the first |
| Conservation.ConservationHolds | src/model/order_book.cpp:161-264 | for every stream without level overflow, side and price: level volume is the summed live volume plus the phantom volume |
| Conservation.ConservedIffNoOverflow | src/model/order_book.cpp:67-74 | that balance holds at every price throughout a stream if and only if no message overflows the level it adds to |
| Conservation.StepBalance | src/model/order_book.cpp:161-264 | one message keeps the balance at a price, the phantom growing by the live volume it overwrites, exactly when it does not overflow that level |
| Conservation.PhantomNeverShrinks | src/model/order_book.cpp:161-264 | phantom volume is never given back as a stream goes on |
| Conservation.NoPhantomIff | src/model/order_book.cpp:161-264 | there is no phantom anywhere if and only if no message wrote over a live order with volume |
| Conservation.HugeOrdersOverflow | src/model/order_book.cpp:67-74 | two orders of 2^63 at one price: the level says 0 while 2^64 rest there |
| Conservation.NoReuseNoPhantom | src/model/order_book.cpp:243-245 | no ID reused while live, no phantom volume anywhere |
| Conservation.LevelsAggregateOrders | src/model/order_book.cpp:67-99 | then each level is exactly the summed volume of the live orders on its side at its price |
| Conservation.LevelsAggregateIff | src/model/order_book.cpp:67-99 | barring overflow the levels are the aggregation of the live orders if and only if no live order with volume was written over |
| Conservation.LevelWithinSubmitted | src/model/order_book.cpp:67-99 | a level never holds more than all volume ever submitted |
| Conservation.SmallStreamsNeverOverflow | src/model/order_book.cpp:67-74 | a stream submitting less than 2^64 in all never overflows a level, whatever it does |
| Conservation.InsertBalance | src/model/order_book.cpp:161-165 | writing an order under an ID balances with the overwritten volume as phantom, exactly when its level does not overflow |
| Conservation.DeleteBalance | src/model/order_book.cpp:185-198 | a delete keeps the balance at every price, known order or not |
| Conservation.ExecuteBalance | src/model/order_book.cpp:200-228 | an execution of any volume keeps the balance at every price |
| Conservation.ModifyIsReplace | src/model/order_book.cpp:167-183 | modifying a live order is replacing it by its own ID and its stored side, whatever side the message has |
| TopOfBook.FailsIff | src/model/order_book.cpp:76-99 | a message counts as a build failure if and only if its target is not live or has no level, and the latter needs a resting volume of 0 |
| TopOfBook.FailuresSplit | include/model/order_book.hpp:61-65 | over every stream without overflow the failures are the unknown targets plus the targets without level |
| TopOfBook.FailuresAreUnknownTargets | include/model/order_book.hpp:61-65 | with positive volumes, ID collisions allowed, the failures are exactly the messages whose target was not live on arrival |
| TopOfBook.ZeroVolumesMiscount | src/model/order_book.cpp:193-196 | two zero-volume orders at a price make a delete of a live order fail |
| TopOfBook.RunPositive | src/model/order_book.cpp:84-86 | with positive volumes no live order and no stored level is ever zero |
| TopOfBook.LiveOrderHasLevel | src/model/order_book.cpp:76-99 | with positive volumes every live order has its level, holding at least its volume |
| TopOfBook.BestIsExtremum | src/model/order_book.cpp:318-335 | the best bid is the greatest price with live or phantom buy volume, the best ask the least price with any other, each with exactly that volume, absent exactly when no price has any |
| TopOfBook.TopOfBookRefinesOrders | src/model/order_book.cpp:318-335 | without ID reuse `bestBid` is absent exactly if no live order has side 'B'; else a live 'B' order has its price, all live 'B' orders have `price <=` it, and its volume is theirs there summed; `bestAsk` likewise for all other sides with `>=` |
| OrderHistory.LiveIff | src/model/order_book.cpp:161-264 | for every stream an ID is live if and only if some Add, Refresh or Replace put it there last and it has since been neither deleted, nor replaced away, nor executed up to the volume set |
| OrderHistory.LiveOrderIs | src/model/order_book.cpp:161-264 | its side is that of the message that put it there, its price and volume those last set by Add, Refresh, Replace or Modify, the volume less what was executed since |
| OrderHistory.MessageDoes | src/model/order_book.cpp:161-246 | after any stream without overflow the next message has exactly its effect: which order is put, restated, reduced or gone, no other order touched, and what every level gains and loses |
| OrderHistory.EffectOf | src/model/order_book.cpp:161-246 | the same on any book whose levels hold what its orders rest there |
| BookAlgebra.AddThenDelete | src/model/order_book.cpp:161-198 | adding a fresh order and deleting it restores orders and both level maps entry by entry, without a failure |
| BookAlgebra.AddDeletePairLeavesNoTrace | src/model/order_book.cpp:161-198 | the same in a stream: book and failure count are those without the pair |
| BookAlgebra.FullExecutionIsDelete | src/model/order_book.cpp:216-228 | an execution of at least the resting volume acts on the book as a delete, failure included |
| BookAlgebra.ExecutionsMerge | src/model/order_book.cpp:200-228 | executions that each find their order live act on the book as one execution of their sum |
| BookAlgebra.ReachableExecutionsMerge | src/model/order_book.cpp:200-228 | and that on every reachable book without overflow |
| DailyStatistics.FoldSummarizes | src/model/trade_ledger.cpp:15-39 | the fold over a log is: open the first live price, close the last, high the maximum, low the minimum, all absent exactly when nothing is live; volume the live volume |
| DailyStatistics.SummaryIsFold | src/model/trade_ledger.cpp:30-39 | nothing but the fold satisfies that reading |
| DailyStatistics.RangeContainsOpenAndClose | src/model/trade_ledger.cpp:15-28 | low <= open, close <= high whenever a trade is live |
| DailyStatistics.CorrectionRefolds | src/model/order_book.cpp:307-315 | restating the volume of a live trade refolds to the same prices and the total patched by the difference |
| DailyStatistics.PatchIsFoldIff | src/model/trade_ledger.cpp:70-77 | patching the total is refolding if and only if the trade is live or its volume does not change |
| DailyStatistics.CorrectedIsExact | src/model/trade_ledger.cpp:73-76 | for all words the casts, the signed difference and the signed sum come to total - old + new modulo 2^64 |
| DailyStatistics.CorrectionDefinedIff | src/model/trade_ledger.cpp:73-76 | below 2^63 neither signed operation overflows exactly when the corrected total stays below 2^63; it is then non-negative and exact |
| DailyStatistics.LiveCorrectionExact | src/model/trade_ledger.cpp:70-77 | correcting a live trade: the true volume moves by new - old, and the signed arithmetic lands on it without overflow exactly while it fits 63 bits |
| Ledger.StatsUpToDrift | src/model/trade_ledger.cpp:41-98 | on every run of the four operations the prices are those of the fold and the volume is off by exactly the drift |
| Ledger.StatsAreFoldIff | src/model/trade_ledger.cpp:61-79 | so the kept statistics are the rebuilt ones if and only if the drift is 0 modulo 2^64 |
| Ledger.FastFormRefinesSpec | src/model/trade_ledger.cpp:9-98 | if every correction finds its trade live, the kept statistics have the declarative meaning |
| Ledger.AdjustKeepsInStepIff | src/model/trade_ledger.cpp:61-79 | one correction keeps the statistics right if and only if the trade is unknown, live or unchanged in volume |
| Ledger.AdjustExact | src/model/trade_ledger.cpp:70-78 | a correction of a live trade in the bounded words of the code, with the exact condition for no signed overflow |
| Ledger.CancelledCorrectionDrifts | src/model/trade_ledger.cpp:61-79 | record, cancel, correct: no trade is live and the total is 2^64 - 60 |
| Ledger.ReplaceIsCancelThenRecordIff | src/model/trade_ledger.cpp:81-98 | a replacement is a cancel and a record in log, index, statistics and result if and only if the cancel succeeds or the volume has not drifted |
| Ledger.ReplaceSplitsIff | src/model/trade_ledger.cpp:81-98 | the same within every run, with the same number of failures in any case |
| Ledger.UnknownReplacementDiffers | src/model/trade_ledger.cpp:81-98 | after record, cancel, correct: replacing an unknown trade is not a failed cancel and a record |
| Ledger.CancelsCommute | src/model/trade_ledger.cpp:48-59 | cancels of two IDs can be swapped: same ledger, same two results |
| TradeHistory.LogOfRun | src/model/trade_ledger.cpp:41-98 | for every run: one record for each recording operation, in order, with the price given there, the volume last given for it, and cancelled exactly if an operation cancelled its ID while it was the last trade under it |
| TradeHistory.TapeLogIs | src/model/order_book.cpp:200-316 | the same for the trade log of a book: its executions, non-displayed trades and crosses |
| TradeHistory.SucceedsIff | src/model/trade_ledger.cpp:48-98 | a cancel or replacement succeeds exactly if there is a live trade under its ID, a correction exactly if there ever was one, a recording always |
| TradeLedger.SymbolLedger.FoldIntoStats | src/model/trade_ledger.cpp:15-28 | the field-by-field update is one step of the fold |
| TradeLedger.SymbolLedger.Recompute | src/model/trade_ledger.cpp:30-39 | the loop leaves the fold of the log |
| TradeLedger.SymbolLedger.RecordTrade | src/model/trade_ledger.cpp:41-46 | appends a live record, files its index and folds it in |
| TradeLedger.SymbolLedger.CancelTrade | src/model/trade_ledger.cpp:48-59 | cancels a live recorded trade and refolds; otherwise fails and changes nothing |
| TradeLedger.SymbolLedger.AdjustVolume | src/model/trade_ledger.cpp:61-79 | restates a recorded trade's volume and moves the total by the difference; fails only for an unknown ID |
| TradeLedger.SymbolLedger.ReplaceTrade | src/model/trade_ledger.cpp:81-98 | cancels the old trade if it is live, records the new one either way, refolds, and reports whether it cancelled |
| TradeLedger.TradeLedger.Process | src/model/trade_ledger.cpp:41-98 | an operation changes the ledger of its symbol alone, and the failure counter by one exactly when it fails |
| TradeLedger.LedgerIsOwnRun | src/model/trade_ledger.cpp:5-7 | a symbol's ledger is the run of that symbol's operations; it exists exactly if there were any |
| TradeLedger.LedgerFailuresAreSum | include/model/trade_ledger.hpp:57-58 | the failure counter is the sum of the symbols' failures |
| TradeTape.StatsAlwaysSummarize | src/model/order_book.cpp:101-140 | on every stream the statistics of a book have the declarative meaning; the ID maps never share a log index, and no cross is ever cancelled |
| TradeTape.CrossCorrectionExact | src/model/order_book.cpp:298-316 | on every reachable book a cross correction finds a live record, so its arithmetic is exact and overflow-free exactly while the true volume fits 63 bits |
| TradeTape.StepSimulation | src/model/order_book.cpp:266-316 | one message does to the trade half what its ledger operation does to a ledger, failure included |
| TradeTape.TapeRunsLikeLedger | src/model/order_book.cpp:266-316 | over every stream: same log, index, statistics and number of failures as a `TradeLedger` fed with the corresponding operations |
| PerSymbol.Projection | src/model/order_book.cpp:63-65 | the part of a symbol after any stream is the run of its own messages |
| PerSymbol.TallyIsSum | src/model/order_book.cpp:167-196 | the failures of a stream are the sum of its symbols' failures |
| PerSymbol.InterleavingsAgree | include/model/order_book.hpp:26-30 | streams with the same per-symbol messages leave the same parts and the same tally |
| Feed.BookIsOwnRun | src/model/order_book.cpp:5-65 | the book of a symbol after any feed is its book after its own messages, and its two halves are runs of those messages |
| Feed.HalvesIndependent | src/model/order_book.cpp:200-228 | the displayed half and the trade half never look at each other |
| Feed.FeedInterleavingsAgree | src/model/order_book.cpp:5-65 | feeds with the same per-symbol messages leave the same order book, counters included |
| Feed.CountersAreSums | include/model/order_book.hpp:61-72 | each failure counter is the sum of the failures of the single books |
| Feed.CounterIsUnknownTargets | include/model/order_book.hpp:61-65 | for a whole feed with positive volumes the build counter is the number of messages naming an order not live on arrival |
| Feed.FeedConserves | src/model/order_book.cpp:161-264 | conservation in the book of any symbol of any feed |
| Feed.FeedTopRefinesOrders | src/model/order_book.cpp:318-335 | the same statement as TopOfBookRefinesOrders for the book of any symbol of any feed |
| Feed.FeedMessageDoes | src/model/order_book.cpp:5-65 | the next message of a feed has exactly its effect on the book of its symbol, and none on any other book |
| Feed.FeedLiveIff | src/model/order_book.cpp:161-264 | what is live in the book of any symbol of any feed, from the history of its ID |
| Feed.FeedLiveOrderIs | src/model/order_book.cpp:161-264 | and what it is |
| Feed.HaltedIs | src/model/order_book.cpp:147-159 | halted exactly if the last status '4' or '5' was '4' |
| Feed.IndicatorIs | src/model/order_book.cpp:248-251 | the indicator is that of the last Retail Price Improvement message |
| Feed.InfoIs | src/model/order_book.cpp:142-145 | the symbol information is the last Symbol Index Mapping, whole |
| Feed.ImbalanceIs | src/model/order_book.cpp:253-255 | the imbalance is the last Imbalance message, whole |
| Feed.NoStatusYet | include/model/order_book.hpp:92-95 | before the first message of a kind its field is as at the start |
| Feed.FeedStatusIs | src/model/order_book.cpp:142-159 | these four fields in the book of any symbol of any feed |
| OrderBook.SymbolBook.AddLevel | src/model/order_book.cpp:67-74 | adds to the level of the side, every side but 'B' being an ask, and touches nothing else |
| OrderBook.SymbolBook.RemoveLevel | src/model/order_book.cpp:76-99 | succeeds if and only if the level exists and holds enough; otherwise leaves the book untouched |
| OrderBook.SymbolBook.AppendTrade | src/model/order_book.cpp:101-119 | appends a live record, folds it in and returns its index |
| OrderBook.SymbolBook.RecomputeStats | src/model/order_book.cpp:121-140 | the loop leaves the fold of the log |
| OrderBook.SymbolBook.ApplyAddOrder | src/model/order_book.cpp:161-165 | the new book in full, also for a refresh, and its exact effect on orders and levels |
| OrderBook.SymbolBook.ApplyModifyOrder | src/model/order_book.cpp:167-183 | the new book in full with its exact effect on orders and levels, and whether a failure is to be counted |
| OrderBook.SymbolBook.ApplyDeleteOrder | src/model/order_book.cpp:185-198 | the new book in full with its exact effect on orders and levels, and whether a failure is to be counted |
| OrderBook.SymbolBook.ApplyOrderExecution | src/model/order_book.cpp:200-228 | the new book in full: full volume logged at the execution price; the order reduced by the volume or gone, its level down by at most the resting volume, all else untouched |
| OrderBook.SymbolBook.ApplyReplaceOrder | src/model/order_book.cpp:230-246 | the new book in full: the old order gone and off its level if it was live, the new one inserted in either case, all else untouched |
| OrderBook.SymbolBook.ApplyNonDisplayedTrade | src/model/order_book.cpp:266-273 | the trade half alone changes |
| OrderBook.SymbolBook.ApplyCrossTrade | src/model/order_book.cpp:275-283 | the trade half alone changes, filed under the cross ID |
| OrderBook.SymbolBook.ApplyTradeCancel | src/model/order_book.cpp:285-296 | cancels a live filed trade and refolds, or fails without effect |
| OrderBook.SymbolBook.ApplyCrossCorrection | src/model/order_book.cpp:298-316 | restates a filed cross and patches the total, or fails without effect |
| OrderBook.SymbolBook.ApplyStatus | src/model/order_book.cpp:142-159 | the single-field messages frame everything else |
| OrderBook.SymbolBook.Apply | src/model/order_book.cpp:5-61 | the dispatch: the new book and both failure flags for every message type |
| OrderBook.OrderBook.GetOrCreateBook | src/model/order_book.cpp:63-65 | the symbol's book, empty if new, all other books untouched |
| OrderBook.OrderBook.OnMessage | src/model/order_book.cpp:5-61 | one message changes the book of its symbol alone, and each counter by at most one |
| OrderBook.OrderBook.Replay | include/model/order_book.hpp:39-47 | feeding a stream leaves the state the theorems are about |
| OrderBook.OrderBook.GetTopOfBook | src/model/order_book.cpp:318-335 | the first entries of the two level maps, absent for an unknown symbol; after every well-formed stream they are the best live prices with their summed volumes |
| OrderBook.OrderBook.GetDailyStats | src/model/order_book.cpp:337-340 | the symbol's statistics, empty for an unknown symbol |
| OrderBook.OrderBook.GetLiveOrderCount | src/model/order_book.cpp:368-374 | the loop sums the live orders of all books, in whatever order it visits them |
| BboValidation.Replayer.OnMessage | examples/bbo-validation/main.cpp:157-173 | applies the message to the book and renews the snapshot of its symbol exactly when it moves the book in time |
| BboValidation.BookTopFramed | examples/bbo-validation/main.cpp:89-120 | a message of another symbol, or of a type reported as not moving the book, leaves the top of book as it is |
| BboValidation.ReportedIff | examples/bbo-validation/main.cpp:89-120 | a message type is reported as moving the book exactly if some message of the type moves the top of some book |
| BboValidation.FrozenAtLast | examples/bbo-validation/main.cpp:169-172 | a snapshot is the top of book right after the last event that froze it, whatever the timestamps |
| BboValidation.NeverFrozen | examples/bbo-validation/main.cpp:161-168 | a symbol no event freezes has no snapshot |
| BboValidation.FreezingIsPointInTime | examples/bbo-validation/main.cpp:157-173 | if no book-moving message behind the cut is stamped at or before the reference time, the snapshot at the end is the top of book after the longest prefix not past that time |
| BboValidation.FreezingInTimeOrder | examples/bbo-validation/main.cpp:157-173 | in particular when the book-moving messages of the symbol are in time order |
| BboValidation.RightForEveryReadingIff | examples/bbo-validation/main.cpp:157-173 | the snapshot is right for every reading of the top that only book-moving messages change, if and only if no book-moving message behind the cut is stamped at or before the reference time |
| BboValidation.LateStampRefreezes | examples/bbo-validation/main.cpp:169-172 | a late message stamped early freezes once more, so the order is needed |
| MessageQueue.MessageQueue.Push | include/queue.hpp:14-20 | appends one message, and leaves no thread waiting |
| MessageQueue.MessageQueue.TryWaitPop | include/queue.hpp:25-36 | takes the front message if there is one, else ends if closed or stopped, else waits; it waits only on an empty open queue |
| MessageQueue.MessageQueue.Close | include/queue.hpp:41-47 | closes, keeps what is queued, and leaves no thread waiting |
| HandOff.ReachableInv | src/engine.cpp:76-93 | every schedule keeps the invariants of mutex, flow, counters, sleeping, phases and exit |
| HandOff.NothingLostOrReordered | src/engine.cpp:143-166 | at any moment of any schedule delivered, in-hand, queued and held messages are the emitted ones in order, and delivered is a prefix |
| HandOff.JoinDeliversAll | src/engine.cpp:83-93 | when `Join` returns everything is delivered once and in order, and the three counters agree |
| HandOff.DestructorLosesAtMostOne | src/engine.cpp:76-81 | when the destructor returns, whenever it was called, all but at most the last emitted message are delivered |
| HandOff.DestructorLosesIff | src/engine.cpp:76-81 | from the moment the stop request is set some continuation loses a message if and only if ingest is then about to lock the mutex with one |
| HandOff.JoinedEngineLosesNothing | src/engine.cpp:76-93 | a destructor called after `Join` has returned loses nothing |
| HandOff.DestructorCanLoseOne | src/engine.cpp:76-81 | an engine with a single line can lose its message |
| HandOff.NoLostWakeup | include/queue.hpp:25-47 | egress asleep means nothing to wake up for, or a notification on its way |
| HandOff.SomeThreadCanMove | src/engine.cpp:83-93 | no reachable state is a deadlock |
| HandOff.MovesWork | src/engine.cpp:143-166 | every move but a spurious wake-up decreases the work left, a spurious wake-up adds 2 to it |
| HandOff.SchedulesAreBounded | src/engine.cpp:83-93 | no schedule is longer than 11 moves a line, 30 more, and 3 a spurious wake-up |
| HandOff.JoinReturns | src/engine.cpp:83-93 | from every reachable state inside `Join`, moves of the threads reach its return with everything delivered, within the work left |
| HandOff.CallReturns | src/engine.cpp:76-93 | the same for any call the owner is in, `Join` or the destructor |
| HandOff.EveryScheduleReturns | src/engine.cpp:76-93 | however the threads are scheduled from inside a call, they make no more moves than there is work left, and when none can move the call has returned |
| Engine.Engine.RecordParseResult | src/engine.cpp:95-115 | counts every line, and the successes among them |
| Engine.Engine.IngestLoop | src/engine.cpp:143-159 | wherever it finds a stop request, it queues exactly what the lines taken emit, in order, counts lines and successes, records the headers that decode, and closes the queue |
| Engine.Engine.EgressLoop | src/engine.cpp:161-166 | on any queue: delivers all that is queued, in order, and counts it; ends if closed or stopped, and otherwise waits |
| Engine.PipelineDeliversParses | src/engine.cpp:143-166 | for any lines at all and any schedule, when `Join` returns exactly what the parses emitted was delivered, in order; the counters are the lines without error, and the lines |
| Engine.PipelineDelivers | src/engine.cpp:143-166 | of lines that each carry an event, of any type and with whatever other values and fields, or do not parse, exactly the events carried are delivered when `Join` returns, in order, with the counters to match |
| Engine.MessageLineCarries | include/schema/nyse/parse.hpp:83-271 | the line of a message with any other values and any fields behind carries its event |
| Engine.BuildBook | include/model/order_book.hpp:39-47 | an order book fed with what is delivered holds the run of the events the lines carry |
| Sequence.IntegrityRecorder.RecordSequence | include/schema/parse.hpp:77-93 | classifies one number, moves the mark only upwards, and counts one line of its type and no other |
| Sequence.RecordingIs | include/schema/parse.hpp:47-66 | over a stream of headers: the metrics of its sequence numbers, and for each type byte the number of lines that had it |
| Sequence.MaxSeenIsMax | include/schema/parse.hpp:47-51 | the high-water mark of the specification is the greatest number of the stream |
| Sequence.LostPlusAdvancesIsLast | include/schema/parse.hpp:77-93 | on every stream the mark is the maximum seen, and messages lost plus advancing lines is the mark, so no sum of gaps wraps |
| Sequence.CountersCount | include/schema/parse.hpp:80-88 | the gap, duplicate and backwards counters count those events |
| Sequence.AccountBalances | include/schema/parse.hpp:51-57 | lost + (lines - duplicates - backwards) = last sequence number = maximum seen |
| Sequence.LostIsNeverSeenPlusRecovered | include/schema/parse.hpp:84-88 | messages lost is the number never seen plus the number counted lost and received later |
| Sequence.LostIsExactIff | include/schema/parse.hpp:84-88 | it never undercounts, and is exact if and only if nothing was recovered, in particular without backwards jumps |
| Sequence.LateNumberOvercounts | include/schema/parse.hpp:84-88 | the numbers 1, 3, 2: one message counted lost, none missing |
| Csv.JoinSplit | include/schema/nyse/csv.hpp:102-132 | joining the fields of a line gives back the line, and no field holds a comma |
| Csv.SplitJoin | include/schema/nyse/csv.hpp:102-132 | comma-free fields survive joining and splitting |
| Csv.SplitPrefix | include/schema/nyse/csv.hpp:102-132 | what follows never changes the fields in front |
| Csv.CommasAreAll | include/schema/nyse/csv.hpp:104-115 | the full index is every comma position, strictly increasing |
| Csv.CsvReader.ExtendIndex | include/schema/nyse/csv.hpp:104-115 | the cache stays a prefix of the full index, never shrinks, and gets past the field or is complete |
| Csv.CsvReader.GetField | include/schema/nyse/csv.hpp:102-132 | whatever was asked before, field n of the full split, or nothing exactly when there are not that many |
| Numbers.ParsePrinted | include/schema/nyse/csv.hpp:24-46 | a printed number is read back, or reported out of range |
| Numbers.ParseUnsignedIff | include/schema/nyse/csv.hpp:22-46 | exactly which texts are read as a number and as which, and for which texts each of the three errors is returned |
| Numbers.ParseTimeIff | include/schema/nyse/csv.hpp:56-78 | exactly which texts are read as a time: 18 characters, the three separators, digits elsewhere; and as which |
| Numbers.ParsePrintedTime | include/schema/nyse/csv.hpp:56-78 | a printed time of day is read back, exactly below 100 hours |
| Numbers.ParseTimeText | include/schema/nyse/csv.hpp:56-78 | any parts that fit their columns are read back to their sum, also minutes and seconds of 60 and more |
| Numbers.SecondsCarryOver | include/schema/nyse/csv.hpp:72-77 | so reading is not injective: second 60 + s is second s of the next minute |
| Numbers.PrintParsedIff | include/schema/nyse/csv.hpp:56-78 | a text is the canonical text of the time it reads as, if and only if its minutes and seconds are below 60 |
| Numbers.ReadAlikeIff | include/schema/nyse/csv.hpp:56-78 | with minutes and seconds below 60 two texts read alike if and only if their parts are equal |
| Schema.PopulateFrom | include/schema/nyse/csv.hpp:241-284 | constructing a nested struct through the lazy reader is decoding it from the full split |
| Schema.PopulateFieldFrom | include/schema/nyse/csv.hpp:173-239 | the same for one field, with the error kind and field index |
| Schema.PopulateFieldIff | include/schema/nyse/csv.hpp:173-239 | exactly which fields are accepted and as what; for every rejection the error kind and the field index |
| Schema.DecodeRowOkIff | include/schema/nyse/csv.hpp:258-284 | a row is read exactly if each field is accepted; otherwise the first that is not is the error |
| Schema.PopulateOkIff | include/schema/nyse/csv.hpp:241-284 | any nested layout is populated exactly if the fields of all its leaves are accepted |
| Schema.PopulateReadsRow | include/schema/nyse/csv.hpp:258-284 | for any nested layout and offset k: leaf i is read from field k + i, and the first leaf that fails is the error |
| Schema.FieldRoundTripIff | include/schema/nyse/csv.hpp:140-147 | a field is read back if and only if its text carries it: in range, no comma, not a blank text where blank means absent |
| Schema.RowRoundTripIff | include/schema/nyse/csv.hpp:173-239 | a row with any fields behind it is read back if and only if each leaf is carried |
| Schema.DecodeEncodeIff | include/schema/nyse/csv.hpp:258-284 | decoding undoes encoding for any nested layout and any trailing fields, if and only if each leaf is carried |
| NyseParser.Parser.ParseNext | include/schema/nyse/parse.hpp:32-289 | one line: its result, sequence number and type recorded exactly if the header decodes, and exactly one message queued on success and none otherwise |
| NyseParser.HeaderInRange | include/schema/nyse/nyse_types.hpp:6-10 | a header that decodes has a one-byte type and a 64-bit number |
| NyseParser.HeaderFirst | include/schema/nyse/nyse_types.hpp:12-186 | every one of the 14 layouts starts with the message header |
| NyseParser.LayoutIsFlat | include/schema/nyse/nyse_types.hpp:6-186 | the nested layouts flattened: which types are known, and the type of the field in each position |
| NyseParser.ParseIff | include/schema/nyse/parse.hpp:32-289 | exactly which lines parse, what is recorded of a line, and when the error is an unknown type |
| NyseParser.LineAcceptedIff | include/schema/nyse/parse.hpp:32-289 | a line parses exactly if it has a header, a known type, and in each position a text the field type there accepts |
| NyseParser.MappingRoundTrip | include/schema/nyse/parse.hpp:43-61 | a Symbol Index Mapping line with any values of its 14 leaves emits the line under its own symbol, without a time |
| NyseParser.ImbalanceRoundTrip | include/schema/nyse/parse.hpp:170-201 | an Imbalance line with any values of its 24 leaves emits the line under its own symbol and time |
| NyseParser.MessageRoundTrip | include/schema/nyse/parse.hpp:62-271 | every message of the 12 types whose public form keeps fields comes out of its line as it went in, for any values of the fields it drops and whatever fields follow |

## Left out

- File reading, logging, elapsed-time metrics and build files: input is a sequence of lines.
- The command-line examples but for the freezing callback, and their reference-file loaders: they print, or keep the last value per key.
- Type erasure (`Message` with a shared void handle, the casts of `OnMessage`): a datatype with one constructor per message type.
- Floating point: prices are integer ticks, and reading a price text is any partial function with a printer that it undoes; NaN, signed zero and rounding are not modelled.
- Symbol information and imbalance records are strings standing for the whole record; security status keeps its status code only; fields of the public messages that no model component reads (sequence number within the symbol, firm, trade conditions, ...) are not kept.
- `IsHalted`, `GetSymbolInfo`, `GetImbalance`, `GetSymbols`, `GetActiveBookCount` and `Size`: they return a field.
- Allocation failure and exceptions from user callbacks: callbacks return; `ParseError::unknown` stands for the former and is not modelled.
- The C++ memory model: a step of the hand-off is atomic, and a condition-variable wait with a stop token tests and falls asleep in one step, as the library guarantees.
- A second call of `Join`: after the first it has nothing to wait for.
- Hash-map iteration order: the sum over the books does not depend on it.
- Engine.Engine.IngestLoop: runs by itself, with the line before which it finds a stop request as a parameter; its interleaving with egress is in the step system of `HandOff`.
- Engine.Engine.EgressLoop: runs by itself, up to where it sleeps or ends; being woken by the other threads is in the step system of `HandOff`.
- MessageQueue.MessageQueue.Push: the critical section and the effect of its notification; the mutex itself, and that the notification comes after the release, are in the step system of `HandOff`.
- MessageQueue.MessageQueue.TryWaitPop: one pass through the wait predicate under the lock; locking, sleeping and waking are in the step system of `HandOff`.
- MessageQueue.MessageQueue.Close: the critical section and the effect of its notification; the mutex itself is in the step system of `HandOff`.
- NyseParser.Parser.ParseNext: the catch-all for other exceptions than decode errors (allocation failure) is not modelled.
