# A model of the exchange core

This project models the core of a spot exchange and proves properties of it. The matching engine, its order book and
its journal are classes whose methods are proved against a specification on sorted queues; the wallet, the withdrawal
desk, the profit ledger, the market maker and the caches are classes over maps and sequences; the inbound queue, the
fill claims and the withdrawal review are transition systems over single atomic steps. What the source promises is then
proved of the specifications, over every run.

Prices and quantities of the engine are integers in units of 10^-18; fees, wallets, profit and the market maker use
exact reals. Clocks, files, the network, the chain, the signer and the shared store enter as parameters or as steps.

## Layout

- `matching_types`, `order_heap`, `book_spec`, `matching_spec`: orders and trades, the binary heap, sorted queues, and
  what each operation does to a book.
- `order_book`, `matching_engine`, `wal`: the classes; heaps with stale entries, the live map and the per-user index
  stand for two sorted queues.
- `matching_laws`, `uncrossed_laws`, `priority_laws`, `ledger_laws`, `fok_laws`, `fill_ids`, `stop_laws`, `order_fate`:
  what holds of every walk and of every run, and what becomes of each kind of order.
- `recovery_spec`, `restore_laws`, `equivalence_laws`, `recovery_laws`, `arrival_laws`, `second_crash`, `restored_ages`,
  `restart_laws`: snapshot, journal, restore and replay, crashing and recovering more than once, and how the classes and
  the file meet them.
- `ring_buffer`, `ring_progress`: producers and the consumer, step by step, and what is accepted and handed over.
- `wallet_store`, `fill_settlement`, `settlement_laws`, `wallet_service`, `reservation_laws`: rows, reservations, fills.
- `exchange_laws`, `cancel_race`, `stranded_orders`: the handler, the engine and settlement running beside each other on
  one wallet.
- `fill_claims`, `fill_lru`: deduplication across instances and within one.
- `withdrawals`, `custody_laws`, `withdrawal_path`, `review_race`: the withdrawal lifecycle, its accounts together with
  those of orders, what lies behind each status, and concurrent review.
- `pnl`; `amm`, `amm_service`, `amm_laws`; `cycle_walking`, `uid_scrambler`; `bech32_checksum`, `bit_regrouping`.
- `arithmetic`, `map_sums`: remainders, powers of two, counting, and totals over maps.

## Where a promise has a condition

Some promises hold only under a condition; each is proved as an equivalence, with an instance of its failure.

- A resting limit order can cross the book: self-trade prevention that cancels the taker leaves its rest on the book
  (`UncrossedLaws.LimitUncrossedIff`, `UncrossedLaws.CancelledTakerCrosses`).
- A fill-or-kill order can fill in part: its availability count ranges over cancelled entries that are still in the heap
  (`FokLaws.AllOrNothingIff`, `FokLaws.StaleEntryFillsInPart`).
- A restore keeps time priority exactly when, at each price, the order ahead is strictly older
  (`RestoreLaws.RestoreIsFaithfulIff`); processing orders in the order of their creation guarantees it
  (`ArrivalLaws.ArrivalAgrees`), and processing two against it loses it (`ArrivalLaws.RacedArrivalIsExchanged`).
- A durable journal record is read back exactly when the file ended in a newline before it: a torn tail swallows the
  record written after it (`WriteAheadLog.DurableIsReadIff`). The comment on NewWALWriter promises numbers that stay
  monotonic across restarts; they do exactly when the log has no gap, and a swallowed record is one
  (`WriteAheadLog.ReopenIsMonotonicIff`, `WriteAheadLog.TornTailSwallowsARecord`).
- An order or cancel refused for a failed sync is executed on recovery, which shows exactly when executing it makes a
  difference (`RecoveryLaws.RefusedInputShowsIff`, `RecoveryLaws.FailedSyncResurrects`).
- A second crash before the next snapshot is invisible exactly when the first one left no unterminated tail and no fewer
  readable records than the snapshot counts appends (`SecondCrashLaws.SecondCrashIsInvisibleIff`). Otherwise the next
  accepted order can end up in the torn line, or under a number that the replay skips
  (`SecondCrashLaws.TornLineLosesAnOrder`, `SecondCrashLaws.CountedFailureLosesAnOrder`).
- A reservation covers every fill exactly when makers pay no more than the rate reserved for
  (`ReservationLaws.ReserveSufficesIff`). The comment on ReserveOrder speaks of market buys as the ones not locked; the
  code locks nothing for any buy that is not of type limit, and the model follows the code. Such a buy settles exactly
  when the buyer can pay by then (`SettlementLaws.FillSettlesIff`).
- A cancel releases its order at once; that is harmless exactly when no trade of the order waits to be settled
  (`ExchangeLaws.ReleaseIsTimelyIff`, `ExchangeLaws.CancelledIsFinishedIff`, `CancelRace.CancelRaceLosesAFill`).
- A finished order is released exactly when it was filled completely or cancelled by its user. What self-trade
  prevention or a rejection takes out of the engine, and the rest of an order that must not rest, stays reserved for ever
  (`StrandedOrders.FinishedIsReleasedIff`, `StrandedOrders.UnmetSellIsStranded`).
- A fill is committed at most once while claims last and the shared store answers (`FillClaims.CommitsAtMostOnce`). A
  call that goes on without the store, or a claim that expires, makes a second commit possible exactly under a condition
  on the claim and the calls at work (`FillClaims.DegradedIff`, `FillClaims.ExpiredIff`,
  `FillClaims.DegradedCommitsTwice`).
- The comment in SettleFill promises that another instance or a retry can settle once the claim is released. A call that
  lost the claim has cached the fill by then, and its instance makes no attempt until the cache forgets it; a claim that
  was not released blocks every instance (`FillClaims.SettlableIff`, `FillClaims.ReleasedButRemembered`,
  `FillClaims.OrphanStays`).
- The comment on RejectWithdrawal says the unlock runs exactly once and a failed release can be retried; the rollback
  writes a status that may be stale by then, and a second approval follows exactly in that case
  (`ReviewRace.ReapprovalIff`, `ReviewRace.StaleRollbackReopens`).
- Withdrawal operations write twice. The accounts stay exact, and no withdrawal is paid twice, exactly when none of them
  breaks off in between (`CustodyLaws.RunIsAccountedIff`, `CustodyLaws.StepKeepsIff`, `CustodyLaws.PaidAgainIff`,
  `Withdrawals.LostStatusDebitsTwice`).
- The market maker settles the wallets before it writes the pool. Shares and tokens are accounted for exactly when no
  write or read after the settlement fails (`AmmLaws.StepKeepsIff`, `AmmLaws.RunConservesIff`, `AmmLaws.LostDeposit`).
- A deposit short of token1 dilutes the other providers (`Amm.DepositKeepsShareValueIff`), although the comment speaks
  of a proportional deposit.

## Model

| member | source | states |
|---|---|---|
| OrderHeaps.OrderHeap.Push | internal/matching/orderbook.go:46-48 | keeps the array a heap; its contents gain exactly the pushed entry |
| OrderHeaps.OrderHeap.Pop | internal/matching/orderbook.go:50-56 | returns the entry with priority over all others; the rest stays a heap and loses exactly that entry |
| OrderHeaps.RootIsBest | internal/matching/orderbook.go:58-63 | the entry a peek sees has price-time priority over every entry of the heap |
| OrderBooks.OrderBook.AddLocked | internal/matching/orderbook.go:176-191 | the order takes its price-time place among the live orders of its side, with the next book sequence number unless it has one; the rest of the book is unchanged |
| OrderBooks.OrderBook.RemoveLocked | internal/matching/orderbook.go:202-213 | the order leaves the live orders, the per-user index and its queue, one sequence number is used, and an unknown id changes nothing; the heap entry may linger |
| OrderBooks.OrderBook.BestLocked | internal/matching/orderbook.go:246-282 | purging stale entries on the way, returns the best live order by price and then sequence, and nothing exactly when the side has no live order; the book is unchanged |
| OrderBooks.OrderBook.PopBest | internal/matching/orderbook.go:286-314 | removes and returns exactly the best live order, past any stale entries |
| OrderBooks.OrderBook.AddStopLocked | internal/matching/orderbook.go:137-144 | a parked stop goes behind the other stops with its own place in time |
| OrderBooks.OrderBook.GetOrdersByUser | internal/matching/orderbook.go:225-236 | yields every live order of the user once and no other: the per-user index is the live map grouped by user |
| OrderBooks.OrderBook.WriteBest | internal/matching/engine.go:578-619 | a partial fill changes the quantities of the best order and nothing of its place |
| OrderBooks.LiveTopIsHead | internal/matching/orderbook.go:246-259 | a heap top that is still live is the head of the sorted queue the heap and the live map stand for |
| BookSpec.SortedIsUnique | internal/matching/orderbook.go:29-40 | strict price-time priority leaves one order in which a side's orders can queue |
| BookSpec.InsertSorted | internal/matching/orderbook.go:176-191 | entering an order at its rank keeps a queue in strict price-time order |
| MatchingEngines.MatchingEngine.EmitTrade | internal/matching/engine.go:632-640 | a trade is sent while the channel has room and otherwise dropped and counted; executed trades are always those received, waiting or dropped |
| MatchingEngines.MatchingEngine.ReceiveTrade | internal/wsbridge/bridge.go:108-132 | the recorders of candles and reference prices take trades in the order they were sent, and the count of executed trades stays the sum of sent and dropped |
| MatchingEngines.MatchingEngine.EmitFill | internal/matching/engine.go:642-658 | the notification to settle a trade is sent while its channel has room and otherwise dropped and counted; every executed trade has one, and those are always the settled, the waiting and the dropped ones |
| MatchingEngines.MatchingEngine.ReceiveFill | internal/wsbridge/bridge.go:134-160 | settlement takes the notifications in the order they were sent |
| MatchingEngines.MatchingEngine.FillLocked | internal/matching/engine.go:578-619 | one fill at the maker's price for the smaller remaining quantity: both quantities move by it, an exhausted maker leaves the book, the last price is set, and the notification says what the taker has left and which order is complete |
| MatchingEngines.MatchingEngine.MatchTurn | internal/matching/engine.go:321-340 | one turn of the loop does one step of the walk: stop, skip or remove an own order, or fill against the best |
| MatchingEngines.MatchingEngine.MatchLoop | internal/matching/engine.go:321-340 | the loop terminates and leaves exactly the book, the taker and the trades of a walk over the sorted opposite side |
| MatchingEngines.MatchingEngine.MatchLimitLocked | internal/matching/engine.go:321-347 | after the walk, what is left rests if it is good till cancelled and is discarded otherwise |
| MatchingEngines.MatchingEngine.MatchImmediateLocked | internal/matching/engine.go:349-370 | market and immediate-or-cancel orders walk and never rest; their status tells whether anything was filled |
| MatchingEngines.MatchingEngine.MatchPostOnlyLocked | internal/matching/engine.go:424-441 | rests without trading, or is rejected when it has no positive price or would cross |
| MatchingEngines.MatchingEngine.MatchStopLocked | internal/matching/engine.go:443-461 | is rejected, fires as a market or limit order, or is parked, by its stop price and the last price |
| MatchingEngines.MatchingEngine.ProcessOrder | internal/matching/engine.go:254-308 | the order is journaled first; a failed append refuses it and changes nothing but counters, a durable one executes it as the specification says |
| MatchingEngines.MatchingEngine.ProcessCancel | internal/matching/engine.go:228-252 | a journaled cancel removes a live order of the named user and nothing else; otherwise it reports not found or not owned |
| MatchingEngines.MatchingEngine.TriggerParkedStops | internal/matching/engine.go:502-532 | fires, in the order they were parked, exactly the stops that the last price at the start of the pass triggers |
| MatchingEngines.MatchingEngine.Serve | internal/matching/engine.go:176-200 | orders and cancels taken one after another, on any book and any journal that still accepts writes, leave the book, the trades and the file of the specified history, the records appended behind what the file had |
| MatchingEngines.MatchingEngine.ServeBatch | internal/matching/engine.go:176-200 | a drained batch is served in order and is followed by one pass over the parked stops |
| MatchingLaws.SweepKeeps | internal/matching/engine.go:321-340 | a walk leaves the book well formed: sorted queues, live quantities positive and adding up, ids apart |
| MatchingLaws.RunIsWellFormed | internal/matching/engine.go:254-308 | after any sequence of orders under fresh ids, cancels and stop passes, the book is well formed |
| UncrossedLaws.WalkEnd | internal/matching/engine.go:321-347 | a walk ends with quantity left and a crossing order in front exactly when self-trade prevention cancelled the taker there |
| UncrossedLaws.LimitUncrossedIff | internal/matching/engine.go:321-347 | a good-till-cancelled limit order leaves the book uncrossed exactly when self-trade prevention does not strand it: a stranded taker still rests |
| UncrossedLaws.CancelledTakerCrosses | internal/matching/engine.go:341-346 | a run that leaves a crossed book: an ask, and a bid of the same user that cancels the taker, rests across from it |
| UncrossedLaws.NeverCrossed | internal/matching/engine.go:502-532 | with self-trade prevention off or cancelling makers, no run of orders, cancels and stop passes ever leaves a crossed book |
| PriorityLaws.FillsAllItCan | internal/matching/engine.go:578-619 | the filled quantity is the smaller of what was asked and all crossing live liquidity the taker may trade with |
| PriorityLaws.FillsInPriorityOrder | internal/matching/engine.go:321-340 | the makers hit are a prefix of the eligible orders in price-time order, each at its own price, all but the last to exhaustion |
| PriorityLaws.OnlyTradedOrOwnLeave | internal/matching/engine.go:555-574 | whatever leaves the opposite side crossed the taker and was traded out or was the taker's own |
| LedgerLaws.RunLedger | internal/matching/engine.go:578-619 | in every run each live order's filled quantity is what it traded, no order trades more than its quantity, and every trade is between opposite orders at a price both accept |
| LedgerLaws.FlagsMeanCompletion | internal/matching/engine.go:642-658 | a notification flags the taker, or the maker, as filled exactly when its trades up to this one add up to its quantity |
| LedgerLaws.BoughtEqualsSold | internal/matching/engine.go:578-619 | over any run the fills of all buy orders, the fills of all sell orders and the traded volume are equal |
| FokLaws.CountOffers | internal/matching/engine.go:372-386 | adds up what the raw heap slice offers, own orders and prices out of reach left aside |
| FokLaws.AllOrNothingIff | internal/matching/engine.go:372-394 | a fill-or-kill order is filled in full or not at all exactly when it is turned away, or what it can really trade with is enough or nothing |
| FokLaws.CleanHeapIsAllOrNothing | internal/matching/engine.go:372-394 | without stale heap entries, and unless self-trade prevention may cancel the taker, it is all or nothing, and trades exactly when enough is offered |
| FokLaws.StaleEntryFillsInPart | internal/matching/engine.go:541-546 | two asks are placed and one is cancelled, whose heap entry stays: a fill-or-kill order gets through and fills in part |
| FillIds.PairsTradeOnce | internal/wsbridge/bridge.go:83-99 | in any run two orders trade with each other at most once |
| FillIds.FillIdsAreUnique | internal/wsbridge/bridge.go:83-99 | no two fills of a run share a settlement id, so deduplication never drops a genuine fill |
| StopLaws.ParkedIff | internal/matching/engine.go:443-461 | a stop order waits behind the others exactly while nothing has traded, or the last price is below a buy's or above a sell's stop price; reached, it does what a market or limit order of its terms does; without a positive stop price it is refused |
| StopLaws.PassIsARun | internal/matching/engine.go:502-532 | a pass keeps, in their order, exactly the stops the last price has not reached, and does what submitting the others in the order of parking as market and limit orders does |
| StopLaws.FiredKeepsItsPlace | internal/matching/orderbook.go:137-144 | a stop that fires and rests takes the place it got when it was parked, ahead of what arrived at its price since |
| StopLaws.LastPriceIsTraded | internal/matching/engine.go:578-619 | in every run the price stops are compared with is that of the last trade |
| StopLaws.StopsWaitForTrades | internal/matching/engine.go:502-532 | in every run a pass leaves a stop parked exactly when the last trade of the run has not reached its stop price |
| StopLaws.StopFiresOnTheWayDown | internal/matching/engine.go:491-532 | a run in which a sell stop at 90 is parked and passed over at 100, and sells after a trade at 90 |
| OrderFate.LimitRestsIff | internal/matching/engine.go:321-347 | a limit order rests, with what it did not trade and under its own terms, exactly when it is good till cancelled and not filled |
| OrderFate.ImmediateNeverRests | internal/matching/engine.go:349-422 | a market or immediate-or-cancel order is in no queue and among no stops afterwards |
| OrderFate.ImmediateStatus | internal/matching/engine.go:349-422 | its status says whether all, some or nothing of it was traded |
| OrderFate.PostOnlyRestsIff | internal/matching/engine.go:424-441 | a post-only order never trades; it rests in full when it has a positive price and no opposite order is at a price it would take, and otherwise leaves the book as it was |
| OrderFate.OwnModeCounts | internal/matching/engine.go:555-574 | an order with a self-trade mode of its own fares the same under every default of the engine |
| OrderFate.DefaultModeCounts | internal/matching/engine.go:555-574 | one without fares as if it had the engine's |
| OrderFate.AnonymousTradesFreely | internal/matching/engine.go:548-553 | an order without a user fares as if self-trade prevention were off |
| OrderFate.NobodyTradesWithItself | internal/matching/engine.go:548-574 | under an engine with self-trade prevention no run has a trade of a user with itself |
| OrderFate.CancelledIff | internal/matching/engine.go:228-252 | a live order is taken out, and nothing else is touched, exactly when the cancel names its user or nobody; otherwise it is refused and the book stays |
| OrderFate.OnlyLiveAreFound | internal/matching/engine.go:228-252 | a cancel under any other id, that of a parked stop included, finds nothing |
| OrderFate.LeavesForAReason | internal/matching/engine.go:228-308 | whatever the engine does next, an order that was live still is, less what it traded, or traded all it had left, or was cancelled by its user, or was taken out by self-trade prevention of an order of its user |
| WriteAheadLog.WALWriter.constructor | internal/matching/wal.go:61-84 | opening an existing log continues from the number of its parsable records, an unterminated last one included |
| WriteAheadLog.WALWriter.Append | internal/matching/wal.go:192-210 | every append takes a number, even a failed one; a failed sync has already written the record, a broken write leaves a part of it or all but its newline, and after one nothing more is written; what is written after an unterminated tail joins it |
| WriteAheadLog.DurableIsReadIff | internal/matching/wal.go:192-210 | a durable append is read back behind the earlier records exactly when the file ended in a newline |
| WriteAheadLog.ReopenIsMonotonicIff | internal/matching/wal.go:125-152 | numbers handed out after a reopening exceed all recorded ones exactly when the log has no gap |
| WriteAheadLog.TornTailSwallowsARecord | internal/matching/wal.go:61-84 | a torn write, then two durable appends after a reopening: the first of them is lost, the log has a gap, and the next process repeats a number |
| WriteAheadLog.BrokenWritesNothing | internal/matching/wal.go:192-210 | after a write that broke off a process writes nothing more, whatever it still appends |
| OrderBooks.OrderBook.TakeSnapshot | internal/matching/snapshot.go:24-41 | a copy of every live order once, in any order, of the stops, the counter and the last price |
| OrderBooks.OrderBook.Restore | internal/matching/snapshot.go:46-94 | rebuilds maps, index and heaps so that they stand for the book refilled by age, renumbered from 1 |
| MatchingEngines.MatchingEngine.ReplayWAL | internal/matching/exchange.go:208-240 | re-executes, through the engine's own operations, exactly the records numbered above the snapshot, and emits their trades again |
| MatchingEngines.MatchingEngine.Recover | internal/matching/exchange.go:182-204 | snapshot, restore and replay together leave the book, and emit the trades, that the specification of recovery says |
| RestoreLaws.RestoreKeepsQueues | internal/matching/snapshot.go:46-94 | where ages agree with priorities, a restore gives back both queues up to renumbering |
| RestoreLaws.RestoreIsFaithfulIff | internal/matching/snapshot.go:46-94 | every snapshot of a book restores to the same queues exactly when, at each price, the order ahead is strictly older |
| RecoveryLaws.RenumberingFits | internal/matching/snapshot.go:46-94 | the numbers 1 to n of a restore never exceed the restored counter, so new orders still queue behind |
| RecoveryLaws.JournaledOrder | internal/matching/exchange.go:242-258 | an order rebuilt from its record is the order submitted, up to its age |
| EquivalenceLaws.RunAlike | internal/matching/exchange.go:208-240 | books with the same live orders, quantities and relative priorities answer all inputs with the same trades, for ever, stop orders parked later and fired in their order of time included |
| RecoveryLaws.JournalIsRead | internal/matching/wal.go:265-295 | what a reader finds in the file of one process is its journal, whatever its last write left behind |
| RecoveryLaws.CrashRecovery | internal/matching/exchange.go:182-240 | for every history of plain orders and cancels and every snapshot point where ages agree, restore and replay give an equivalent book and emit again exactly the trades made since the snapshot, and all later inputs, stop orders among them, make the same trades |
| SecondCrashLaws.SecondCrash | internal/matching/exchange.go:182-240 | if the first process left no unterminated tail and as many readable records as the snapshot counts appends, then whatever the restarted engine writes on behind that file, a second crash gives an equivalent of the book it crashed with and makes again the trades of both processes |
| SecondCrashLaws.SecondCrashIsInvisibleIff | internal/matching/exchange.go:208-218 | for any first crash, the second one is invisible whatever the restarted engine executes exactly when the file it reopened had no unterminated tail and no fewer readable records than the snapshot counts appends |
| SecondCrashLaws.TornLineLosesAnOrder | internal/matching/wal.go:61-84 | a first process crashes with a torn line; the next order, durably accepted, ends up in that line and the second recovery does not have it |
| SecondCrashLaws.CountedFailureLosesAnOrder | internal/matching/exchange.go:208-218 | a snapshot counts a failed append; after a restart the next order, durably accepted, gets a number the snapshot has, and the second recovery skips it |
| RecoveryLaws.RefusedInputShowsIff | internal/matching/engine.go:254-308 | an input whose append was reported as failed but left its record is executed by recovery; the recovered book differs from the live one exactly when executing it makes a difference |
| RecoveryLaws.FailedSyncResurrects | internal/matching/engine.go:254-308 | an order refused because its sync failed comes to life on recovery, so recovery needs a failed append to leave no readable record |
| RestoredAges.RecoveredKeepsAges | internal/matching/exchange.go:242-258 | if the journal's clock runs on ahead of the snapshot's orders, ages agree with priorities in the recovered book too, so that every snapshot of it restores faithfully |
| RestoredAges.RecoversAgain | internal/matching/exchange.go:182-240 | a restarted engine that takes a snapshot of its own and crashes: that snapshot and the file of both processes give an equivalent of the book it crashed with, and make again the trades made since |
| ArrivalLaws.ArrivalAgrees | internal/matching/snapshot.go:46-94 | if orders are created in the order they are processed, ages agree with priorities in every book the engine reaches |
| ArrivalLaws.RecoveryByArrival | internal/matching/exchange.go:182-240 | crash recovery is invisible, trades and later stop orders included, for every history in the order of creation, at every snapshot point |
| ArrivalLaws.RacedArrivalIsExchanged | internal/matching/snapshot.go:46-94 | two bids at one price processed against the order of their creation: a snapshot of that book restores them exchanged |
| RestartLaws.SnapshotIsRestorable | internal/matching/snapshot.go:24-94 | every snapshot of a book the engine can have meets what a restore asks for |
| RestartLaws.JournalIsReplayable | internal/matching/exchange.go:208-240 | every journal of orders under fresh ids meets what a replay asks for, on any state that knows none of the orders above the snapshot |
| RestartLaws.RestartIsReady | internal/matching/exchange.go:182-204 | a snapshot taken after any number of appends and the file written until the crash meet what a restart asks for |
| RestartLaws.SecondRestartIsReady | internal/matching/exchange.go:182-204 | so do the old snapshot and the file two processes wrote, unless the first left an unterminated tail |
| RestartLaws.RegisterPair | internal/matching/exchange.go:41-66 | a restarted engine holds an equivalent of the book the crashed one had, continues its journal, and has emitted the trades made since the snapshot |
| RingBuffer.ProducerKeeps | internal/matching/ringbuffer.go:75-95 | every load, reservation, publication and signal of a producer keeps the queue's invariant |
| RingBuffer.ConsumerKeeps | internal/matching/ringbuffer.go:117-157 | so does every step of draining, of asking whether the drain is stalled, of blocking and of waking |
| RingBuffer.DeliveredIsPrefix | internal/matching/ringbuffer.go:117-148 | for any number of producers and every interleaving, the drained orders are a prefix of the reserved ones: nothing lost, duplicated or reordered |
| RingBuffer.HistoriesOnlyGrow | internal/matching/ringbuffer.go:75-148 | reservations and deliveries are only ever appended to, so a delivery is final |
| RingBuffer.NeverOverwrites | internal/matching/ringbuffer.go:75-95 | a producer stores only into an empty slot within one lap of the head |
| RingBuffer.NoLostWakeup | internal/matching/engine.go:190-224 | a blocked consumer whose next slot is published has a token waiting or a producer about to send one |
| RingBuffer.AsleepMeansEmpty | internal/matching/engine.go:190-224 | a consumer blocked with every enqueue finished and no token left has received every order |
| RingProgress.GivesUpIff | internal/matching/ringbuffer.go:75-95 | a producer refuses its order exactly when the reservations as it looked at the tail, less the deliveries as it had looked at the head, come to the capacity less one |
| RingProgress.EnqueueSucceeds | internal/matching/ringbuffer.go:75-95 | while the backlog leaves room, an enqueue that meets no other one puts its order last, into its slot, and leaves a token |
| RingProgress.DrainTakesAll | internal/matching/ringbuffer.go:117-148 | with every reservation published, one undisturbed drain delivers all of them |
| RingProgress.SleepsIff | internal/matching/ringbuffer.go:153-157 | after an empty drain the consumer goes to sleep exactly when nothing was reserved as it looked, or the next order has been published since; for one still to be published it stays awake |
| CycleWalking.Returns | internal/api/uid.go:66-73 | iterating a permutation of a finite range comes back to its start |
| CycleWalking.WalkIsInjective | internal/api/uid.go:66-73 | for any permutation, two starts that walk to one value are one start |
| CycleWalking.WalkIsOnto | internal/api/uid.go:66-73 | for any permutation, every value of the domain is walked to |
| UidScrambler.PermuteIsBijective | internal/api/uid.go:52-61 | for any masked round function and any half width, the network is a permutation of the block with an inverse |
| UidScrambler.FeistelPermute | internal/api/uid.go:52-61 | the loop over the eight built-in rounds computes that permutation |
| UidScrambler.FeistelCycleWalk | internal/api/uid.go:66-73 | the unbounded loop ends from every start inside the domain, on the first value inside it |
| UidScrambler.WalkedIsInjective | internal/api/uid.go:66-73 | within a digit domain different inputs get different outputs |
| UidScrambler.WalkedIsOnto | internal/api/uid.go:66-73 | within a digit domain every output is some input's |
| UidScrambler.ScrambleUID | internal/api/uid.go:92-120 | succeeds exactly on the accepted sequence range, for every 64-bit sequence value, wrap-around included |
| UidScrambler.UidHasItsDigits | internal/api/uid.go:88-120 | the first 9e8 values give 9-digit numbers, the next 9e9 give 10 digits and the last 9e10 give 11 |
| UidScrambler.UidsNeverCollide | internal/api/uid.go:88-120 | no two accepted sequence values get the same user id, across domains too |
| UidScrambler.EveryUidIsIssued | internal/api/uid.go:88-120 | every number of 9 to 11 digits is some sequence value's user id |
| Bech32Checksum.Polymod | internal/wallet/validate.go:130-143 | the nested loop computes the fold of the checksum step from 1 |
| Bech32Checksum.StepIsRemainder | internal/wallet/validate.go:130-143 | a step multiplies the state, a polynomial over the field of 32 elements, by x, adds the symbol, and leaves the remainder by the generator polynomial of BIP-173 |
| Bech32Checksum.VerifyChecksum | internal/wallet/validate.go:171-183 | expands the human-readable part and accepts exactly when the checksum of both parts is 1 |
| Bech32Checksum.StepIsLinear | internal/wallet/validate.go:130-143 | the step is linear in state and symbol over exclusive or |
| Bech32Checksum.StepKeepsDifferent | internal/wallet/validate.go:130-143 | the step is injective in its 30-bit state |
| Bech32Checksum.BurstIsDetected | internal/wallet/validate.go:171-183 | two data parts of one length that differ only within six consecutive symbols never both pass, for every length and human-readable part |
| Bech32Checksum.OneSymbolIsDetected | internal/wallet/validate.go:171-183 | changing one symbol of a valid data part is always detected |
| Bech32Checksum.SwapIsDetected | internal/wallet/validate.go:171-183 | so is exchanging two different neighbours |
| Bech32Checksum.ChecksumIsUnique | internal/wallet/validate.go:171-183 | the last six symbols are determined by all the others |
| Bech32Checksum.WrongNetworkIsDetected | internal/wallet/validate.go:171-183 | a data part valid under one two-letter human-readable part is valid under no other |
| Bech32Checksum.StandardVectorHolds | internal/wallet/validate.go:171-183 | the first valid string among the test vectors of BIP-173 passes |
| BitRegrouping.ConvertBits | internal/wallet/validate.go:198-222 | for all group widths up to 8, returns a regrouping of the same bits whenever there is one and refuses exactly when there is none, the 32-bit accumulator overflowing or not |
| BitRegrouping.RegroupsOnce | internal/wallet/validate.go:198-222 | a regrouping is unique |
| BitRegrouping.DecodesIffEncoded | internal/wallet/validate.go:198-222 | symbols decode to bytes exactly when they are the padded encoding of those bytes |
| BitRegrouping.RoundTrip | internal/wallet/validate.go:198-222 | 8 to 5 bits padded and back unpadded returns every byte string |
| WalletStores.PGWalletStore.ReserveForAccount | internal/store/pg_wallet.go:135-175 | locks the amount exactly when that much is available, and otherwise leaves the rows as they were |
| WalletStores.PGWalletStore.ReserveWithDailyLimit | internal/store/pg_wallet.go:185-242 | locks the funds and adds to the day's meter, or does neither when funds or limit do not allow both |
| WalletStores.PGWalletStore.ReleaseDailyUsage | internal/store/pg_wallet.go:246-256 | credits the meter and never takes it below zero |
| WalletStores.PGWalletStore.Settle | internal/store/pg_wallet.go:264-348 | the batch of guarded row updates commits as a whole or changes nothing |
| WalletStores.SettledIsSolvent | internal/store/pg_wallet.go:264-348 | any batch that commits keeps 0 <= locked <= balance on every row |
| WalletStores.SettledTotal | internal/store/pg_wallet.go:264-348 | on any choice of rows a batch that commits changes the balances by the sum of its deltas |
| WalletStores.UnlocksAllOrNothing | internal/store/pg_wallet.go:264-348 | a mutation unlocks its whole amount if that much is locked, and otherwise nothing; no other row changes |
| WalletStores.Transfer | internal/wallet/service.go:792-822 | debits one account and credits another in one batch, or fails and changes nothing |
| WalletStores.TransferConserves | internal/wallet/service.go:792-822 | a transfer goes through exactly when the amount is available, moves it, and keeps the user's total |
| WalletServices.Service.ReserveOrder | internal/wallet/service.go:415-459 | locks price times quantity and the taker fee of quote for a limit buy, the quantity of base for a sell, nothing otherwise, and records what it locked |
| WalletServices.Service.ReleaseOrder | internal/wallet/service.go:466-501 | forgets the reservation and unlocks what is left of it, unless the store fails in between |
| WalletServices.Service.SettleFill | internal/wallet/service.go:585-752 | settles a fill once per id; a failed batch restores rows and reservation trackers exactly |
| WalletServices.Service.DrawDown | internal/wallet/service.go:671-698 | takes the payment out of a reservation, capped at what is left, and drops an exhausted one |
| WalletServices.Service.FillBatch | internal/wallet/service.go:703-720 | buyer and seller, their fees and the four balance changes, by the taker's side |
| SettlementLaws.SideKeeps | internal/wallet/service.go:671-720 | one side of a fill keeps the rows solvent, the remaining reservations backed and every other lock in place |
| SettlementLaws.FillKeeps | internal/wallet/service.go:627-746 | so does a whole fill, settled or failed, with or without reservations |
| SettlementLaws.CoveredFillSettles | internal/wallet/service.go:627-746 | a fill whose two reservations cover their payments never fails |
| SettlementLaws.FillSettlesIff | internal/wallet/service.go:627-746 | a fill whose seller reserved enough settles exactly when the buyer can pay, from what is available and the portion of its reservation; so for buys that reserve nothing |
| SettlementLaws.FillMoves | internal/wallet/service.go:703-720 | on any choice of rows a fill moves the quantity, its price and the two fees to and from buyer and seller, nothing else |
| SettlementLaws.FillConserves | internal/wallet/service.go:703-720 | a fill conserves the base asset and lowers the quote asset by the taker fee and the maker fee |
| SettlementLaws.ReserveKeeps | internal/wallet/service.go:415-459 | a reservation locks exactly what the tracker then holds for the order |
| SettlementLaws.ReleaseKeeps | internal/wallet/service.go:466-501 | a release unlocks exactly the rest of that order's reservation: nothing of the order stays locked, and nothing else is touched |
| SettlementLaws.FailedReleaseStrands | internal/wallet/service.go:466-501 | a release whose unlock fails leaves the rest of the reservation locked with no record of it |
| ReservationLaws.ReserveSufficesIff | internal/wallet/service.go:429-442 | a limit buy's reservation covers every fill within its limit exactly when the maker rate is at most the taker rate, or zero |
| ReservationLaws.ReservesWorstFill | internal/wallet/service.go:415-459 | a limit buy reserves just what taking all of it at the limit costs, or its notional under a taker rebate; a sell its quantity; any other buy nothing |
| ReservationLaws.NextTradeIsCovered | internal/wallet/service.go:671-698 | both reserved parties of the engine's next trade can pay, and what is left covers the unfilled rest of every order at its limit with the fee |
| ReservationLaws.ReserveCovers | internal/wallet/service.go:415-459 | what is reserved for an order covers it from the start and leaves the cover of other orders alone |
| ExchangeLaws.StepLeavesOut | internal/matching/engine.go:228-308 | an order that is not in the book, and not being submitted, takes no part in whatever the engine does next |
| ExchangeLaws.NextKeeps | internal/api/order_handler.go:520-547 | placing, matching, settling, dropping a fill, releasing and anything else in the wallet keep it solvent and reservations backed; and all but an untimely release keep every waiting and future fill covered |
| ExchangeLaws.EveryFillSettles | internal/wsbridge/bridge.go:134-205 | in every interleaving of orders reserved as they arrive, matching, settlement and timely releases, the next fill settles if its buyer reserved, and otherwise exactly when the buyer can pay |
| ExchangeLaws.ReleaseIsTimelyIff | internal/api/order_handler.go:551-584 | releasing an order leaves every waiting fill its reservations exactly when none of the order's trades is unsettled |
| ExchangeLaws.CancelledIsFinishedIff | internal/api/order_handler.go:551-584 | after a successful cancel the order is done with exactly when none of its trades is unsettled |
| ExchangeLaws.CompletedIsFinished | internal/wsbridge/bridge.go:188-205 | the release after the fill that completes an order is timely |
| StrandedOrders.FinishedIsReleasedIff | internal/wsbridge/bridge.go:188-205 | an order that is out of the engine with all its trades settled is ever released exactly when they add up to its quantity or its user cancelled it; every other one stays reserved for ever |
| StrandedOrders.UnmetSellIsStranded | internal/api/order_handler.go:520-584 | an immediate-or-cancel sell that finds no buyer leaves its quantity locked, and no continuation releases it |
| CancelRace.CancelRaceLosesAFill | internal/api/order_handler.go:551-584 | an order is cancelled and released while one of its fills waits, the buyer spends the freed funds, and the fill cannot be settled |
| FillClaims.CommitsAtMostOnce | internal/wallet/service.go:593-620 | over every interleaving of calls, failures, crashes and retries on any number of instances, the store commits a fill at most once |
| FillClaims.SettlableIff | internal/wallet/service.go:593-620 | without a cache having to forget the fill, it can still be settled exactly when a call holds its claim, or the claim is free or about to be released and some call is past the cache or on an instance that has not cached the fill |
| FillClaims.ReleasedButRemembered | internal/wallet/service.go:613-618 | a call that lost the claim caches the fill as settled; when the holder then fails and releases the claim for a retry, nobody retries |
| FillClaims.LeavingOrphans | internal/wallet/service.go:610-625 | a call that holds the claim and dies, finds the pair malformed or fails to delete it leaves an orphaned claim |
| FillClaims.OrphanStays | internal/wallet/service.go:617-625 | an orphaned claim keeps the fill from being settled for as long as it lasts |
| FillClaims.ClaimEndsBy | internal/wallet/service.go:604-746 | a claim ends only by its expiry or by the call whose settlement failed |
| FillClaims.DegradedIff | internal/wallet/service.go:604-612 | a call that goes on without the shared store makes a second commit possible exactly when the claim is no orphan: it is free, or a call holds it, or another call also goes on without the store, or the fill is committed |
| FillClaims.ExpiredIff | internal/wallet/service.go:593-620 | the expiry of the claim makes a second commit possible exactly when the fill is committed and some call exists, or a call holds the claim and will commit, or one that failed still holds it beside another call |
| FillClaims.DegradedCommitsTwice | internal/wallet/service.go:604-612 | with the shared store out of reach two calls on one instance each commit the fill |
| FillClaims.SettledOncePerInstance | internal/wallet/service.go:593-620 | once a committed fill is remembered, and no other call is under way on that instance, the instance settles it no more until its cache forgets it, whatever becomes of the claim and the shared store |
| FillLru.FillLRU.Contains | internal/wallet/lru.go:47-60 | a hit refreshes and moves to the front, an expired entry is dropped and reported absent; map and list stay the same entries |
| FillLru.FillLRU.Add | internal/wallet/lru.go:63-73 | a known key moves to the front, a new one enters there and the cache evicts |
| FillLru.FillLRU.Evict | internal/wallet/lru.go:105-120 | drops the least recent entries above the capacity and then the expired ones at the back |
| FillLru.FillLRU.SetCapacity | internal/wallet/lru.go:79-85 | changes the capacity, a non-positive one to the default, and evicts |
| FillLru.FillLRU.SetTTL | internal/wallet/lru.go:88-91 | changes the time to live and evicts |
| FillLru.TouchedIsFirst | internal/wallet/lru.go:47-73 | a key added or found is at the front, accessed now |
| FillLru.RunIsGood | internal/wallet/lru.go:47-120 | in every run under a clock that never goes back, keys are distinct, within capacity, and access times fall from front to back |
| FillLru.RecentIsRemembered | internal/wallet/lru.go:47-120 | a key just touched is reported present at any time within the time to live, while fewer other keys than the capacity are touched |
| FillLru.ExpiredIsForgotten | internal/wallet/lru.go:47-120 | a key not touched for longer than the time to live is reported absent, and the lookup drops it |
| Withdrawals.WithdrawalService.RequestWithdrawal | internal/wallet/withdrawal.go:434-480 | locks the amount and starts pending or under review by the threshold; a record that cannot be saved releases the lock, unless that fails too |
| Withdrawals.WithdrawalService.ApproveWithdrawal | internal/wallet/withdrawal.go:496-525 | approves exactly a pending or reviewing withdrawal, and names the reason otherwise |
| Withdrawals.WithdrawalService.RejectWithdrawal | internal/wallet/withdrawal.go:531-565 | rejects a pending, reviewing or cold-signing withdrawal and unlocks its amount; a failed release puts the status back, or leaves it rejected and locked when that fails too |
| Withdrawals.WithdrawalService.BroadcastWithdrawal | internal/wallet/withdrawal.go:654-715 | an approved withdrawal is sent from the hot wallet or, if a signer is attached and its amount reaches the threshold, queued for cold signing, and stays approved when the record of that is lost |
| Withdrawals.WithdrawalService.AdvanceColdWithdrawal | internal/wallet/withdrawal.go:757-835 | a cold withdrawal waits, fails and is unlocked, is signed, or is broadcast; the status is saved before the unlock and after the broadcast |
| Withdrawals.WithdrawalService.ConfirmWithdrawal | internal/wallet/withdrawal.go:856-889 | a broadcast withdrawal with enough confirmations is unlocked and debited and completed |
| Withdrawals.LostStatusDebitsTwice | internal/wallet/withdrawal.go:880-888 | settling succeeds but recording the status fails: confirming again debits the amount a second time |
| CustodyLaws.UnlockKeeps | internal/wallet/withdrawal.go:531-565 | rejecting or failing a withdrawal unlocks its amount exactly once |
| CustodyLaws.ConfirmKeeps | internal/wallet/withdrawal.go:856-889 | completing one never fails, and unlocks and debits its amount exactly once |
| CustodyLaws.StepKeepsIff | internal/wallet/withdrawal.go:389-889 | any deposit, order, fill or withdrawal operation keeps each spot row's lock equal to its open reservations and open withdrawals exactly when it did not break off between its two writes |
| CustodyLaws.ChainAgreesIff | internal/wallet/withdrawal.go:654-835 | an operation keeps each withdrawal on the chain once if recorded as sent, and not at all otherwise, exactly when it recorded what it sent |
| CustodyLaws.ClosedStays | internal/wallet/withdrawal.go:496-565 | a completed, rejected or failed withdrawal never changes again, and no withdrawal's terms ever do |
| CustodyLaws.RunIsAccountedIff | internal/wallet/withdrawal.go:389-889 | along a run the locks are accounted for, rows solvent and chain and records in agreement at every point exactly when no operation of it broke off half way |
| CustodyLaws.PaidAtMostOnce | internal/wallet/withdrawal.go:654-835 | in every run that recorded each of its transfers, whatever else broke off, no withdrawal is put on the chain more than once |
| CustodyLaws.PaidAgainIff | internal/wallet/withdrawal.go:676-684 | after a withdrawal was sent the next operation can send it again exactly when its record was lost |
| CustodyLaws.ConfirmNeverFails | internal/wallet/withdrawal.go:856-889 | in every run in which nothing was lost, confirming a broadcast withdrawal completes it |
| CustodyLaws.BooksBalance | internal/wallet/withdrawal.go:856-889 | in every run, whatever breaks off, balances and recorded payments of an asset together are the deposits less the trading fees and the payments whose completion was not recorded |
| WithdrawalPath.StatusMovesIff | internal/wallet/withdrawal.go:496-889 | which operation, with which answers, takes a withdrawal from which status to which: these moves and no others |
| WithdrawalPath.AppearsByRequest | internal/wallet/withdrawal.go:434-480 | a withdrawal appears by a request whose amount was available, pending or under review |
| WithdrawalPath.CompletedWay | internal/wallet/withdrawal.go:856-889 | in every run a completed withdrawal was approved while under review, then sent and recorded as sent, and then confirmed deep enough, in this order |
| WithdrawalPath.PaidWasApproved | internal/wallet/withdrawal.go:654-684 | in every run, whatever breaks off, what is on the chain was approved before |
| WithdrawalPath.LargeOnesAreSignedOffline | internal/wallet/withdrawal.go:654-689 | in every run a withdrawal is put on the chain by the cold signer exactly when one is attached and the amount is at least the threshold of its asset |
| ReviewRace.OneDecision | internal/wallet/withdrawal.go:496-565 | under every interleaving without a stale rollback at most one approval takes effect and one rejection stands, the funds are released at most once and for a rejection, and before the withdrawal is carried on it is one or the other |
| ReviewRace.UndisturbedApproval | internal/wallet/withdrawal.go:496-525 | a reviewer whom nobody disturbs approves exactly a withdrawal that is pending or under review |
| ReviewRace.UndisturbedRejection | internal/wallet/withdrawal.go:531-565 | and rejects exactly one of those or one queued for signing, releasing its funds once |
| ReviewRace.ReapprovalIff | internal/wallet/withdrawal.go:545-560 | a failed release opens the way to a second approval exactly when it writes back a reviewable status after an approval took effect |
| ReviewRace.StaleRollbackReopens | internal/wallet/withdrawal.go:545-560 | a failed release writes back a stale status and lets a withdrawal be approved twice |
| ProfitAndLoss.PnlService.RecordFill | internal/pnl/service.go:57-78 | both sides of a fill are recorded, with opposite signs, for users that are named |
| ProfitAndLoss.PnlService.UpdateUser | internal/pnl/service.go:80-152 | quantity, average cost, realized profit and the day's bucket after opening, adding, reducing, closing or flipping |
| ProfitAndLoss.FillWorth | internal/pnl/service.go:80-152 | whatever a fill does to a position, its profit at a mark moves by quantity times mark over price |
| ProfitAndLoss.PnlIdentity | internal/pnl/service.go:80-152 | after any fills, realized profit is quantity times average cost less the net signed cost |
| ProfitAndLoss.AddingRealizesNothing | internal/pnl/service.go:126-152 | a fill in the direction of the position realizes nothing and adds its own cost |
| ProfitAndLoss.PartialExitKeepsCost | internal/pnl/service.go:116-152 | a fill that leaves part of a position keeps the cost of the rest and realizes the profit of the part, the other way for a short |
| ProfitAndLoss.ExitRealizesAll | internal/pnl/service.go:116-152 | a fill that closes or flips a position realizes the profit of all of it; what is left costs the fill's price |
| ProfitAndLoss.AverageCost | internal/pnl/service.go:80-152 | a position built by legs of one direction and left in part costs the average of the legs, whatever the exits, and has realized what each exit earned against it |
| ProfitAndLoss.FillExposure | internal/pnl/service.go:57-78 | the two sides of a fill cancel at every mark; a side without a user is not recorded and leaves the other's |
| ProfitAndLoss.ZeroSum | internal/pnl/service.go:57-152 | after any fills between named users, realized and unrealized profit over all users is zero at every mark price |
| ProfitAndLoss.DailyIsRealized | internal/pnl/service.go:178-186 | a user's daily buckets add up to the user's realized profit |
| ProfitAndLoss.BucketIsRealizedThatDay | internal/pnl/service.go:178-186 | a user's bucket of a day holds what the fills of that day realized for the user, in whatever order they came |
| Amm.Sqrt | internal/amm/math.go:124-158 | from any positive guess the loop returns a positive number whose square is at least x and exceeds it by at most 4^-99 of what the first step left, never above a guess that was too high |
| Amm.FirstExcessIsSmall | internal/amm/math.go:128-134 | from a power of two with half the exponent of x the first step leaves at most nine sixteenths of x |
| Amm.SwapKeepsProduct | internal/amm/math.go:69-121 | a swap keeps the product of the reserves exactly and both reserves positive |
| Amm.SplitSwapIsSame | internal/amm/math.go:69-121 | splitting a swap changes neither the final pool nor the total output |
| Amm.RoundTripNeverGains | internal/amm/math.go:69-121 | swapping back and forth never gains, and loses nothing exactly when there is no fee |
| Amm.DepositKeepsShareValueIff | internal/amm/math.go:14-43 | a later deposit keeps what a share is worth in token1 exactly when it brings the proportional amount: shares are minted from token0 alone |
| Amm.RedeemKeepsShareValue | internal/amm/math.go:47-66 | redeeming shares leaves what every other share is worth in both tokens |
| AmmServices.Service.AddLiquidity | internal/amm/service.go:85-141 | the wallets pay both tokens or nothing happens; then reserves and shares and then the position are written, and a write that fails leaves what was written before it; a position that cannot be read is replaced |
| AmmServices.Service.RemoveLiquidity | internal/amm/service.go:145-197 | pays the proportional part of both reserves for shares the provider has, and then burns them in the pool and in the position, as far as the writes go through |
| AmmServices.Service.ExecuteSwapWithMinOut | internal/amm/service.go:219-279 | refuses below the minimum; otherwise settles the wallets, and then writes the reserves and the protocol fee of the input token, as far as the writes go through |
| AmmLaws.SwapGoesThroughIff | internal/amm/service.go:219-279 | without a minimum a swap goes through exactly for a token of an open pool with reserves and a positive input the user has; the user pays the input and gains of the other token |
| AmmLaws.SlippageIff | internal/amm/service.go:215-245 | a swap is refused for its minimum exactly when it would have brought the user less, and is otherwise the swap without a minimum |
| AmmLaws.RedeemGoesThroughIff | internal/amm/service.go:145-197 | shares are redeemed exactly by a provider who has them |
| AmmLaws.StepKeepsIff | internal/amm/service.go:85-279 | an operation keeps the providers' shares equal to the pool's and, for each token, the sum of wallets, reserve and protocol fees exactly when it did not break off after settling the wallets |
| AmmLaws.RunConservesIff | internal/amm/service.go:85-279 | along any run from an empty pool both hold at every point exactly when no operation of it broke off |
| AmmLaws.LostDeposit | internal/amm/service.go:105-139 | a deposit whose pool cannot be written: the provider has paid and has no shares |

## Left out

- Iceberg orders: the slice loop has no measure that decreases once crossing liquidity has run out, and their fields are
  not journaled.
- Fill-or-kill is modelled on values, not in the engine class: the heap of the class holds keys, so the quantities of
  cancelled entries come in as the slice the count ranges over; it stays out of the recovery theorem.
- OrderBooks.OrderBook.WriteBest: an order shared by pointer between map and heap is a map value here, and a heap entry
  holds only the id, price and sequence number, which never change while it is in a heap; aliasing is not captured.
- OrderBooks.OrderBook.AddLocked: assumes that no heap entry, live or stale, still carries the order's id, which holds
  because ids are used once.
- OrderBooks.OrderBook.BestLocked: bids and asks share one method, chosen by the side; the two loops of the source are
  mirror images.
- MatchingEngines.MatchingEngine.MatchLoop: the limit, market and immediate-or-cancel loops are one loop, whose price
  test depends on the type; a limit or stop-limit order has a price.
- MatchingEngines.MatchingEngine.TriggerParkedStops: does not repeat while stops set each other off, as the source makes
  one pass.
- Statuses of filled makers: removal overwrites them, so quantities are stated instead.
- RecoveryLaws.CrashRecovery: before the crash no stop, iceberg or fill-or-kill orders, snapshots between operations
  only, and no append that was reported as failed and yet left a readable record; the trades compared carry no ids or
  times.
- MatchingEngines.MatchingEngine.ProcessOrder: has no iceberg and no fill-or-kill branch.
- MatchingEngines.MatchingEngine.Serve: the log is one that still accepts writes, and order ids are new to the book; once
  the log is broken every order is refused (MatchingEngines.MatchingEngine.ProcessOrder).
- MatchingEngines.MatchingEngine.ReplayWAL: the journal repeats no order id above the snapshot, as ids are used once.
- WriteAheadLog.WALWriter.Append: with a batch size above 1 an append succeeds before its record is synced, which the
  model does not tell from a synced one. Durable means accepted and in the file; crashes are of the process and not of
  the machine, so what was handed to the file stays there.
- Malformed snapshots and records that do not parse as orders are skipped or refused by the source before the part
  modelled here; saving and loading the files is left out.
- Depth, recent trades, tickers, risk checks, time stamps, client ids and completion channels of orders: no claim here
  depends on them.
- SubmitOrderSync and CancelAll: the one waits for the engine, the other repeats cancels; neither is part of this model.
- RingBuffer.DeliveredIsPrefix: counters are naturals, without the wrap-around of 64-bit words, and a slot is the
  remainder by any positive capacity; the spin budget of a drain is any number of retries.
- Rounding of big.Float and of decimal text, in the wallet, the profit ledger and the market maker: exact reals.
- WalletServices.Service.SettleFill: one instance, with the settled ids as a set that forgets nothing (the bounded cache
  is FillLru, the claims across instances are FillClaims).
- WalletServices.Service.ReleaseOrder: without the copies of reservations in the shared store, from which another
  instance could release what this one has forgotten.
- Splitting the pair, the transaction records and the account-type strings: the assets come split and accounts are an
  enumeration; a pair that does not parse appears in FillClaims only.
- SettlementLaws.FillKeeps: fee rates between -1 and 1; a larger one would turn a payment into a credit.
- ExchangeLaws.EveryFillSettles: one pair; whatever else happens in the wallet is one kind of step, which keeps it
  solvent and leaves reservations alone. A fill at a price that is not positive, which the handler's checks rule out, is
  refused by the wallet.
- StrandedOrders.FinishedIsReleasedIff: orders that the engine executed; one whose append failed stays reserved in the
  source too, and is no event of this model.
- FillClaims: one fill id, a settlement that commits or rolls back as a whole, and claims that do not expire unless the
  Expire step says so. A crash ends a call and leaves the cache of its instance; a restart is a crash and an Evict.
- FillLru.FillLRU.Evict: the clock is read once per call; a list element and the map's pointer to it are one value kept
  in both places.
- Withdrawals.WithdrawalService.RequestWithdrawal: starts after the address, whitelist, price and daily-limit checks;
  the daily meter itself is WalletStores.PGWalletStore.ReserveWithDailyLimit, and its best-effort credit is left out.
- CustodyLaws.RunIsAccountedIff: each operation is atomic up to where it breaks off; concurrent cold advance and
  rejection are left out. Spot rows only. A signed transaction broadcast twice counts twice, although a chain would take
  it once.
- Withdrawals.WithdrawalService.BroadcastWithdrawal: assets are compared as they are, where the policy puts them in upper
  case; signer and policy are fixed at construction.
- The Confirming status: no operation modelled here sets it.
- ProfitAndLoss: keys are pairs, so user names with a colon do not collide; fee records, summaries and history are
  left out. Fills of one asset in several quote assets are added up as the source adds them.
- Amm.Sqrt: the guess comes in as a parameter; the oscillation branch cannot be taken in exact arithmetic.
- AmmServices.Service.ExecuteSwapWithMinOut: without the record of the swap, which is written last; when that fails the
  source reports an error for a swap that went through.
- AmmLaws.RunConservesIff: one pool, started empty, with two different tokens; seeding, fee collection and several pools
  are left out.
- Parsing of addresses (case, prefix, witness program lengths), base58 and EVM addresses: easier members.
- UidScrambler.ScrambleUID: the number, not its decimal text. The keys and the multiplier of the mixer are taken over as
  they are; the laws of the network hold for every choice of them.
- HTTP, WebSocket and gRPC handlers, market data, metrics, authentication, chain clients and futures: plumbing.
