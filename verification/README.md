# Verified models of the stellAIverse back end

This project models the state machines and algorithms at the core of the repository and proves what
they keep over whole runs. Code that changes objects step by step is a class or a method with loops,
proved equal to a function of the old state; the theorems are lemmas about those functions.

| file | models |
|---|---|
| `Indexer.dfy`, `IndexerRepair.dfy`, `IndexerRows.dfy` | the polling block indexer: rollback over stored rows, batched rescan, duplicate-ignoring insert; which rows come back to a table that a poll did not heal; what is stored, log by log |
| `Market.dfy`, `MarketTerms.dfy`, `MarketTheorems.dfy`, `MarketDay.dfy` | the market simulation: strategies, order book, greedy price-sorted matching, settlement; the terms of orders, prices and trades; what holds of any book, and what one day does exactly |
| `Text.dfy`, `BatchQueue.dfy`, `BatchSearch.dfy`, `BatchEnds.dfy`, `BatchRepeats.dfy`, `BatchReports.dfy` | the batch orchestrator: three strategies, rows found by a substring search, atomic steps between awaits; when that search can miss, where runs end, what becomes of jobs submitted twice, and what priorities, rows and status come to |
| `JobLifecycle.dfy`, `JobPolicies.dfy`, `BatchJobs.dfy` | retry policies and delays, a job's life from submission to a result or a dead letter, and what a batch makes of it |
| `SseStream.dfy`, `SseStandard.dfy`, `ToolCalls.dfy` | reassembly of streamed lines into events, beside the standard's reading, and of streamed fragments into tool calls |
| `BonusPool.dfy`, `BonusGrants.dfy`, `BonusReturns.dfy`, `BonusAdjustment.dfy`, `BonusOverlap.dfy`, `BonusRequests.dfy` | reservations of bonus capacity, their eviction and revocation; when a boost is granted and what is taken back; smoothed multipliers and granted limits; requests that overlap, and their place among all operations of the service |
| `LimitScaler.dfy` | rate-limited, anti-oscillating multipliers and pruned event buckets |
| `Forecast.dfy`, `Trend.dfy`, `TrendPoints.dfy`, `Csv.dfy`, `CsvFormat.dfy` | least-squares forecast, trend buckets and CSV export of the analytics dashboard |
| `Canonical.dfy`, `CanonicalKeys.dfy` | canonical forms of JSON values, the keys they drop and the order of the rest, and verification of results by their hash |
| `GridWorld.dfy`, `GridMoves.dfy` | agents on a grid of obstacles and resources |
| `Wrappers.dfy` | the `Option` type, bounds and distances |

Conventions. Floating-point numbers are `real`. Times, random draws, job outcomes, chain contents and
interleavings are inputs, so every theorem holds for all of them. Hash functions are uninterpreted
functions, assumed free of collisions where a lemma says so. A queue runs a job again when its handler
throws and attempts are left. JSON parsing is an arbitrary partial function.

## Where the code does not do what one would expect

Each of these is proved, with the exact condition where there is one.

- A row stored above the current head is not removed unless the topmost stored row the chain reaches has
  been reorganised (`Indexer.PollExactIff`, `Indexer.StaleRowSurvives`). While it stays, its key keeps the same log
  out when that is mined again lower down (`IndexerRepair.StaleRowBlocks`), and the log stays missing until a
  rollback stops below its block (`IndexerRepair.MissingStays`, `IndexerRepair.RowReturnsIff`).
- An aggressive trader bids for twice the quantity it has checked, so a day can leave it in debt: exactly when
  the ask its bid meets costs more than its cash (`MarketDay.DaySolventIff`), which some day does exactly when it
  cannot pay for twice its quantity or ten units, whichever is less (`MarketDay.AggressiveSafeIff`). Its own asks
  lie above every bid and never fill (`MarketDay.DayFillTerms`), so no trader ever sells what it has not got
  (`MarketDay.RunStocked`).
- The substring search can take one row of a batch for another exactly when the batch id contains the mark
  `-job-k` of a row k and some row numbered before k does not run in an earlier chunk, or the batch continues on
  errors, or when the id the queue gives a job contains the mark of a later row that may still be looked for
  (`BatchSearch.MissReachableIff`).
- Submitting one job object twice breaks the priority strategy (`BatchQueue.PriorityOrderIff`): the later rows of
  the object are never run, and stay pending in every run exactly when no other job can reach them
  (`BatchRepeats.LeftOutIff`). A job that ends again after its row has completed is recorded in the next row whose
  number starts with the same digits, or lost (`BatchRepeats.SecondSettlement`); so a row is reached only through a
  repeated row whose digits begin its own (`BatchRepeats.ReachedByRepeat`), as row 10 is through a second end of
  row 1 (`BatchRepeats.RepeatReaches`). A row that runs, too, records its own job in every run exactly when no other
  job can reach it (`BatchRepeats.OwnRecordIff`).
- A cancelled batch reads cancelled at the end only if nothing overwrote it (`BatchQueue.CancelledIff`).
- A job that fails for good counts as completed in its batch, and never stops it: the handler answers with an
  ordinary result after filing the dead letter (`BatchJobs.RowFailedIff`, `BatchJobs.AcceptedNeverStops`).
- A job whose attempts option is below its policy's attempts can fail without a dead letter
  (`JobLifecycle.NeverLostIff`), and jitter is added after the delay has been capped
  (`JobLifecycle.CapKeptIff`).
- `collectStreamResponse` throws unless some delta carries a function call (`ToolCalls.LoopsAgree`).
- The line parser reads other payloads than section 9.2.6 of the WHATWG HTML Standard: on data lines without a
  space after the colon or with white space at their end, on data lines that are indented, and on lines that a lone
  carriage return, which ends a line in the standard, breaks into parts with a data field among them
  (`SseStandard.PayloadIff`, `SseStandard.LoneCarriageReturn`). And it takes one event from every data line,
  where the standard joins the data lines before a blank line into one; up to the `[DONE]` marker, at which the
  parser stops, the two agree exactly on streams with one data line for each event (`SseStandard.StandardIff`).
- Resetting a bonus pool loses the reservations of live boosts, so that a pool is exact throughout a run exactly
  when none is live at any reset (`BonusPool.ResetRunsIff`).
- Overlapping requests can together be granted more than is left in a pool: exactly when something is left, they
  want more than that and at least two of them want something (`BonusOverlap.OverlapIff`), and in a run as soon as an adjustment wants more
  than what is left less what is granted and not yet recorded, unless nothing is outstanding, or a new capacity
  is below what is counted and outstanding (`BonusOverlap.OverrunIff`).
- A poll with a configured batch size below zero never ends (`Indexer.ScanEndsIff`).
- A trend counts samples newer than now that fall into its last bucket (`Trend.TrendExactIff`).
- An empty CSV record does not survive a round trip (`Csv.RoundTripIff`).
- A field named `__proto__` is lost by `sortObjectKeys` (`Canonical.SortKeeps`).
- In the grid world nobody ever collects anything: walking onto a resource overwrites its cell, so every
  score stays zero in every run (`GridWorld.NeverCollects`, `GridWorld.LifeOfAWorld`). Two agents may share a
  cell, and then not both are marked (`GridWorld.AllMarkedIff`). Every run reports that it ended at its step
  limit, whatever ended it (`GridWorld.GridWorldEnvironment.Run`).

## Model

| member | source | states |
|---|---|---|
| Indexer.SameHashSamePrefix | src/indexer/indexer.service.ts:62-69 | two hash-linked chains with equal hashes at a height are equal up to that height, so comparing one hash settles the whole prefix |
| Indexer.StoredHashesAgree | src/indexer/indexer.service.ts:55-57 | the rows stored for one block carry one hash, so it does not matter which of them `findOne` returns |
| Indexer.IndexerService.constructor | src/indexer/indexer.service.ts:13-17 | an indexer starts with its configuration and an empty table |
| Indexer.IndexerService.GetLastIndexedBlock | src/indexer/indexer.service.ts:39-46 | returns nothing exactly for an empty table, and otherwise a block number that some stored row has and none exceeds |
| Indexer.IndexerService.HandleReorgIfAny | src/indexer/indexer.service.ts:48-80 | the in-place walk down from the last block returns the height and leaves the table that the rollback function says |
| Indexer.RollbackExact | src/indexer/indexer.service.ts:48-80 | if the table held exactly an old chain's logs up to b and no row lies above the head, the walk leaves exactly the new chain's logs up to the height it returns |
| Indexer.RolledExact | src/indexer/indexer.service.ts:97-98 | the same for the whole of a rollback from the last indexed block, rows above the head included when the topmost reached row was reorganised |
| Indexer.IndexerService.StoreLogs | src/indexer/indexer.service.ts:113-142 | inserts the logs in order, skipping every one that clashes with the table's unique key |
| Indexer.InsertAllAppends | src/indexer/entities/indexed-event.entity.ts:4 | logs without clashing keys are all appended, in order |
| Indexer.ScanIgnoresBatches | src/indexer/indexer.service.ts:103-145 | the batched loop inserts exactly the rows of the whole block range, in order |
| Indexer.BatchSizeImmaterial | src/indexer/indexer.service.ts:103-107 | a poll's result does not depend on the batch size |
| Indexer.ScanEndsIff | src/indexer/indexer.service.ts:103-145 | the loop over batches comes to an end if and only if the batch size is positive or there is nothing to scan |
| Indexer.IndexerService.RunOnce | src/indexer/indexer.service.ts:82-146 | one poll, whenever its loop comes to an end, turns the table into what the poll function says |
| Indexer.PollExact | src/indexer/indexer.service.ts:82-146 | if the table held exactly some earlier chain's logs from the start block to a mark, after the poll it holds exactly the current chain's logs from the start block to max(lastSafe, safeTo) |
| Indexer.StaleRowSurvives | src/indexer/indexer.service.ts:62-69 | when the head has dropped below a stored row and the topmost row it reaches is on chain, a row above the head is still there after the poll |
| Indexer.PollExactIff | src/indexer/indexer.service.ts:48-80 | a poll makes the table exact if and only if no row lies above the head or the topmost row the chain reaches was reorganised |
| Indexer.RunExact | src/indexer/indexer.service.ts:82-146 | in every run of healing polls from the empty table, over any reorganisations, the table is exactly one polled chain's logs in a range, and the last poll's chain and mark whenever that poll had a safe block |
| IndexerRepair.RolledIs | src/indexer/indexer.service.ts:48-80 | whatever the table, the rollback stops at the highest stored block from the start on whose first row carries the chain's hash, and leaves all rows, or those up to there if a stored block above it and not above the head was reorganised |
| IndexerRepair.RowReturnsIff | src/indexer/indexer.service.ts:82-146 | whatever the table, a row of the chain is in it after a poll if and only if, up to the highest stored block still on the chain, it was there before, and above that block no row that stays has its key |
| IndexerRepair.StaleRowBlocks | src/indexer/indexer.service.ts:62-69 | a row above the head that a poll does not heal keeps out the same log mined again in a lower block |
| IndexerRepair.MissingStays | src/indexer/indexer.service.ts:48-80 | a missing row stays missing through any number of polls that each find a stored block at or above its block still on the chain |
| IndexerRepair.RepairsIff | src/indexer/indexer.service.ts:82-146 | whatever the table, a poll makes it exact if and only if its rows up to the highest stored block still on the chain are the chain's, and no row lies above the head or a block in between was reorganised |
| IndexerRows.PollAdds | src/indexer/indexer.service.ts:94-111 | whatever the table, every row that a poll adds is a log of its block on the chain with the configured address and first topic where configured, in a block from the start on that lies the configured number of confirmations or more below the head |
| IndexerRows.PollStores | src/indexer/indexer.service.ts:82-146 | after a poll that heals its table the table is, in order, the rows of the wanted logs from the start to some block not below the last confirmed one, and a log in a confirmed block from the start on is stored if and only if its address and first topic are those configured |
| IndexerRows.RunStores | src/indexer/indexer.service.ts:82-146 | the same at the end of every run of healing polls from the empty table, over any reorganisations |
| IndexerRows.RunKeys | src/indexer/entities/indexed-event.entity.ts:4 | in every run, healing or not, no two rows have one transaction, index, address and first topic |
| IndexerRows.PollEndsIff | src/indexer/indexer.service.ts:94-145 | whatever the table, a poll comes to an end if and only if no block has the confirmations or its loop over batches, from the block after the last one kept or the start, gets beyond the last confirmed one |
| Market.MarketSimulation.constructor | simulation-environments/market-simulation.environment.ts:67-71 | a simulation starts in the state it is given, not paused |
| Market.MarketSimulation.PlaceOrder | simulation-environments/market-simulation.environment.ts:419-433 | appends the order to the book and changes nothing else |
| Market.MarketSimulation.ExecuteTraderStrategy | simulation-environments/market-simulation.environment.ts:379-417 | places the one order, if any, that the trader's strategy decides on |
| Market.MarketSimulation.ExecuteTrade | simulation-environments/market-simulation.environment.ts:461-495 | moves cash and units between buyer and seller and logs the trade, as the settlement function says |
| Market.MarketSimulation.ProcessOrders | simulation-environments/market-simulation.environment.ts:435-459 | the nested loops with their splice settle exactly the fills of the match, in order, and empty the book |
| Market.MarketSimulation.CalculateTraderValue | simulation-environments/market-simulation.environment.ts:497-509 | returns cash plus the value of every holding of an existing asset, in whatever order the portfolio is visited |
| Market.MarketSimulation.ValueTraders | simulation-environments/market-simulation.environment.ts:264-267 | the loop gives every trader the value of its own cash and holdings and changes nothing else |
| Market.MarketSimulation.DecideAll | simulation-environments/market-simulation.environment.ts:246-259 | every trader in turn adds its order, none depending on the orders before it |
| Market.MarketSimulation.Step | simulation-environments/market-simulation.environment.ts:229-273 | one step is repricing, deciding, matching, settling and valuing, or nothing of the trading part when paused |
| MarketTerms.AggressiveIs | simulation-environments/market-simulation.environment.ts:389-396 | an aggressive trader bids at the price for twice its quantity exactly when its coin says so and it can pay for the quantity once, and otherwise asks five percent more exactly when it holds anything of the asset, a debt included, or the quantity is zero |
| MarketTerms.ConservativeIs | simulation-environments/market-simulation.environment.ts:398-405 | a conservative trader buys exactly below the base price and what it can pay for, and otherwise sells exactly above 1.1 times it and what it holds, both at the price |
| MarketTerms.RandomIs | simulation-environments/market-simulation.environment.ts:407-415 | a random trader buys exactly when its coin says so and it can pay, and otherwise sells exactly what it holds |
| MarketTerms.PriceIs | simulation-environments/market-simulation.environment.ts:234-243 | a day counts itself and moves each price by its volatility times the shock and a hundredth of the sentiment, not below one |
| MarketTerms.MatchTerms | simulation-environments/market-simulation.environment.ts:435-459 | fills join a bid and an ask of the book on one asset by two traders with the bid reaching the ask, no such pair is left over, no bid is passed over for a lower one and none gets a higher ask than one left over |
| MarketTerms.TradeIs | simulation-environments/market-simulation.environment.ts:461-495 | a trade moves the lesser quantity to the buyer and its cost at the middle of bid and ask to the seller, changes no other cash or holding, and is logged |
| MarketTerms.ValueIs | simulation-environments/market-simulation.environment.ts:264-267 | after a day every trader is valued at its cash and the price of each unit it holds |
| MarketTheorems.SettleConserves | simulation-environments/market-simulation.environment.ts:461-495 | one settlement keeps total cash, total units of every asset and total worth |
| MarketTheorems.ProcessConserves | simulation-environments/market-simulation.environment.ts:435-509 | processing the book keeps total cash, total units of every asset and, at fixed prices, the sum of the trader values |
| MarketTheorems.DayConserves | simulation-environments/market-simulation.environment.ts:229-273 | a whole step keeps total cash and total units |
| MarketTheorems.RunConserves | simulation-environments/market-simulation.environment.ts:229-273 | total cash and the total units of every asset never change in any run |
| MarketTheorems.SortedStable | simulation-environments/market-simulation.environment.ts:438-439 | the sort keeps orders at equal prices in arrival order |
| MarketTheorems.SortedSorts | simulation-environments/market-simulation.environment.ts:438-439 | buys come out by falling price, sells by rising price |
| MarketTheorems.MatchSplits | simulation-environments/market-simulation.environment.ts:441-455 | every order comes out exactly once, in one fill or unmatched |
| MarketTheorems.MatchMaximal | simulation-environments/market-simulation.environment.ts:441-455 | every fill joins a compatible pair and no unmatched buy is compatible with an unmatched sell |
| MarketTheorems.MatchByPrice | simulation-environments/market-simulation.environment.ts:441-455 | an unmatched buy would not take the sell of any lower bid |
| MarketTheorems.MatchBestPrice | simulation-environments/market-simulation.environment.ts:441-455 | no unmatched sell that a filled buy could take asks less than the sell it got |
| MarketTheorems.BookMatched | simulation-environments/market-simulation.environment.ts:435-459 | for any book: fills join a buy and a sell of the same asset by distinct traders at a price between ask and bid, and the match is maximal and price-fair |
| MarketTheorems.FillsWithinOrders | simulation-environments/market-simulation.environment.ts:441-455 | a trader takes part in at most as many fills as it has orders |
| MarketTheorems.OneFillEach | simulation-environments/market-simulation.environment.ts:246-262 | from a clear book no trader takes part in more than one fill a step |
| MarketTheorems.DecideCovers | simulation-environments/market-simulation.environment.ts:379-417 | conservative and random traders cover every order they place |
| MarketTheorems.DaySolvent | simulation-environments/market-simulation.environment.ts:229-273 | a step leaves a solvent trader that is not aggressive solvent |
| MarketTheorems.RunSolvent | simulation-environments/market-simulation.environment.ts:229-273 | in every run a trader that is not aggressive and starts solvent never has negative cash or a negative holding |
| MarketDay.BookZips | simulation-environments/market-simulation.environment.ts:435-459 | in any book at one price per asset with one order per trader, the greedy match pairs the k-th bid on an asset with the k-th ask at or below its price |
| MarketDay.DayFills | simulation-environments/market-simulation.environment.ts:229-262 | every day's book is such a book: on each asset the fills are its bids and its asks at the price, zipped in the order of the traders |
| MarketDay.DayFillTerms | simulation-environments/market-simulation.environment.ts:379-459 | every fill of a day is at the day's price and for at most ten units, and its seller is not aggressive |
| MarketDay.DayLargest | simulation-environments/market-simulation.environment.ts:441-455 | no other way to match a day's book, using each order at most once, makes more trades than the greedy one |
| MarketDay.RunStocked | simulation-environments/market-simulation.environment.ts:229-273 | in every run no trader, whatever its strategy, holds less than nothing of an asset |
| MarketDay.DayPurchase | simulation-environments/market-simulation.environment.ts:435-483 | the k-th bidder on an asset pays the day's price for the units it gets from the k-th ask, and nothing when there is none |
| MarketDay.DaySolventIff | simulation-environments/market-simulation.environment.ts:229-273 | a solvent trader of any strategy ends the day solvent if and only if its bid does not meet an ask that costs more than its cash |
| MarketDay.RunSolventIff | simulation-environments/market-simulation.environment.ts:229-273 | over a whole run a trader of any strategy is solvent after every day if and only if that happens on none of them |
| MarketDay.AggressiveOwes | simulation-environments/market-simulation.environment.ts:389-392 | an aggressive buyer that can pay for neither twice its quantity nor ten units meets a day that leaves it with negative cash |
| MarketDay.AggressiveSafeIff | simulation-environments/market-simulation.environment.ts:389-392 | an aggressive buyer is safe on every day it may meet, whoever else trades, if and only if its cash pays for twice its quantity or ten units, whichever is less |
| Text.NameContainsIff | src/compute-job-queue/queue.service.ts:549-551 | row j's name contains `-job-i` exactly when the batch id does or the digits of i begin those of j |
| Text.NoEarlierPrefix | src/compute-job-queue/queue.service.ts:549-551 | the digits of i begin those of no smaller number |
| Text.OccurrencePlace | src/compute-job-queue/queue.service.ts:549-551 | an occurrence of the mark lies inside the batch id or right after it |
| Text.DecimalIs | src/compute-job-queue/queue.service.ts:492 | the digits of a row number are decimal digits that say that number, without a leading zero except for zero |
| BatchQueue.SearchFinds | src/compute-job-queue/queue.service.ts:549-551 | with clean ids the search for row i finds row i whatever the rows before it have come to, as long as row i has not completed |
| BatchQueue.FreshSearchIff | src/compute-job-queue/queue.service.ts:549-551 | before any job has ended the search finds every row if and only if the batch id contains none of the marks of rows 1 and up |
| BatchSearch.MissReachableIff | src/compute-job-queue/queue.service.ts:527-753 | for every order, chunk width and way of handling errors, every batch id and all ids the queue gives the jobs, some run takes one row for another if and only if the batch id contains the mark of a row while some row numbered before it is not in an earlier chunk, or the batch continues on errors, or a job's id contains the mark of a later row of its chunk or a later chunk |
| BatchSearch.ContinuingSoundIff | src/compute-job-queue/queue.service.ts:547-587 | a batch that continues on errors is sound, so that with harmless queue ids no run misses a row, if and only if its id contains none of the marks |
| BatchSearch.SequentialSound | src/compute-job-queue/queue.service.ts:533-588 | a sequential batch that stops on errors is sound whatever its id |
| BatchSearch.OneByOneHarmlessIff | src/compute-job-queue/queue.service.ts:533-556 | run one at a time in submission order, a job's id is harmless if and only if it contains no mark of a later row |
| Text.GeneratedIff | src/compute-job-queue/queue.service.ts:811-817 | a generated id contains the mark of row k if and only if its part before the time does, or that part ends in `-job` and the digits of k begin the time |
| BatchQueue.PriorityOrderIff | src/compute-job-queue/queue.service.ts:682-702 | sorting and then looking jobs up by identity visits every row once if and only if no job object occurs twice |
| BatchQueue.PriorityOrderRanked | src/compute-job-queue/queue.service.ts:681-686 | with distinct jobs the priority order is the stable ranking by priority: every row once, and of two rows the one that ranks first stands first (BatchReports.PrioritiesAscend says it in the jobs' own numbers) |
| BatchReports.PrioritiesAscend | src/compute-job-queue/queue.service.ts:681-686 | of any two places the earlier holds a priority number no higher than the later, a job without one standing after those below ten, before those above and level with ten; with distinct jobs equal ones keep the order of submission |
| BatchRepeats.SecondSettlement | src/compute-job-queue/queue.service.ts:697-720 | when a job ends again whose row has completed, it is settled on the first later row that has not completed and whose mark starts with the same digits, and is lost if there is none |
| BatchRepeats.RunNames | src/compute-job-queue/queue.service.ts:675-753 | whatever rows an order repeats or leaves out, every row carries a mark whose digits begin its number until it completes, completedJobs is the number of completed rows, and it equals the jobs submitted if and only if every row has completed |
| BatchRepeats.OwnRecordIff | src/compute-job-queue/queue.service.ts:675-753 | whatever rows an order repeats or leaves out, a row records its own job's first success or else its last failure in every run if and only if no other job can reach it: at no place of the order does a smaller row stand whose digits begin its number, when every row between that those digits begin has closed and the row itself may still be open |
| BatchRepeats.LeftOutIff | src/compute-job-queue/queue.service.ts:681-702 | a later row of a job object submitted again stays pending in every priority run if and only if no other job can reach it, and some run completes it if and only if one can |
| BatchRepeats.ReachedByRepeat | src/compute-job-queue/queue.service.ts:697-703 | a row can be reached only if a smaller row whose digits begin its number is run twice |
| BatchRepeats.RepeatReaches | src/compute-job-queue/queue.service.ts:697-703 | and is reached by such a row at its second end if the rows between that its digits begin were run before |
| BatchRepeats.TenOwn | src/compute-job-queue/queue.service.ts:697-703 | in a batch of at most ten jobs no job can reach another's row |
| BatchQueue.SettleHits | src/compute-job-queue/queue.service.ts:547-587 | a job that ends overwrites its own row and no other, the counters still equal the marked rows, and it throws exactly when it failed and errors stop the batch |
| BatchQueue.StepKeeps | src/compute-job-queue/queue.service.ts:527-753 | every atomic step of every strategy keeps the invariant |
| BatchQueue.Reachable | src/compute-job-queue/queue.service.ts:478-753 | in every interleaving completedJobs and failedJobs equal the number of rows so marked |
| BatchQueue.SettlesOnce | src/compute-job-queue/queue.service.ts:478-753 | in every interleaving each row has settled exactly once or is still waiting |
| BatchQueue.RowRecords | src/compute-job-queue/queue.service.ts:547-586 | the outcome a job ended with stays recorded in its own row at every later moment |
| BatchQueue.ReturnedSettled | src/compute-job-queue/queue.service.ts:590-596 | when a batch returns every row has settled and the counters add up to the jobs; a batch that continues on errors never rejects |
| BatchReports.EndedRowSays | src/compute-job-queue/queue.service.ts:552-577 | in every run and at every moment, the row of a job that has ended holds the queue's id, its own name, completed and the result, or its own name, failed and the error |
| BatchReports.WaitingRowSays | src/compute-job-queue/queue.service.ts:491-494 | and the row of one that has not holds its own name and pending |
| BatchReports.WidthIs | src/compute-job-queue/queue.service.ts:604-608 | the strategies run one job at a time or, in parallel, the configured number, five if none is set, and take jobs in submission order unless by priority |
| BatchReports.StartsNext | src/compute-job-queue/queue.service.ts:607-609 | whenever jobs start they are the next of the order, as many as may run at once or all that are left |
| BatchReports.NeverMore | src/compute-job-queue/queue.service.ts:607-665 | in every run no more jobs than that are in flight |
| BatchReports.StatusFollows | src/compute-job-queue/queue.service.ts:579-595 | in every run that nobody cancels the batch reads running while it works, failed once a failure stopped it, and completed when it returns |
| BatchReports.CancelAnyTime | src/compute-job-queue/queue.service.ts:783-791 | after any run a batch can be cancelled, whatever it is doing; it then reads cancelled, and nothing else changes |
| BatchEnds.StopsIff | src/compute-job-queue/queue.service.ts:527-753 | a run of n rows can go no further if and only if its batch has returned or been rejected with every started job ended, and it makes at most 2n + 2 moves, cancellations aside |
| BatchEnds.Finishes | src/compute-job-queue/queue.service.ts:527-753 | every run can be carried on to such an end, whatever happened so far |
| BatchQueue.SequentialStops | src/compute-job-queue/queue.service.ts:579-583 | run one at a time, a batch that stops on errors has no failure while it works or once it returned, and exactly one failure and nothing in flight once it rejects |
| BatchQueue.CancelSurvivesIff | src/compute-job-queue/queue.service.ts:783-791 | which steps leave a cancelled batch cancelled, and which overwrite the status |
| BatchQueue.CancelledIff | src/compute-job-queue/queue.service.ts:590-596 | at the end of any run a batch reads cancelled if and only if it was cancelled after its last caught rejection, its last failure that stops the batch, and its return |
| BatchQueue.QueueService.constructor | src/compute-job-queue/queue.service.ts:485-496 | a batch starts with pending rows named after its id and zero counters |
| BatchQueue.QueueService.FindIndex | src/compute-job-queue/queue.service.ts:549-551 | returns the first row whose job id contains the mark, or -1 |
| BatchQueue.QueueService.JobEnded | src/compute-job-queue/queue.service.ts:543-587 | settles a finished or failed job in the shared progress |
| BatchQueue.QueueService.ProcessOneByOne | src/compute-job-queue/queue.service.ts:533-596 | the loop over rows in a given order is an undisturbed run of the step machine whose jobs end in that order with the given outcomes, up to a return or a rejection |
| BatchQueue.QueueService.ProcessSequentially | src/compute-job-queue/queue.service.ts:527-596 | the sequential strategy is such a run in submission order |
| BatchQueue.QueueService.ProcessByPriority | src/compute-job-queue/queue.service.ts:675-753 | the priority strategy is such a run in priority order, also when a job object occurs twice |
| BatchQueue.QueueService.DrainChunk | src/compute-job-queue/queue.service.ts:609-665 | all rows of a chunk end, in the scheduled order, even after one of them has thrown |
| BatchQueue.QueueService.AddBatchJob | src/compute-job-queue/queue.service.ts:478-525 | an empty batch is refused and changes nothing; any other is a run of the machine under its strategy that resolves, or rejects with the rejection caught and the batch marked failed |
| BatchQueue.QueueService.ProcessInParallel | src/compute-job-queue/queue.service.ts:598-673 | the parallel strategy, under any schedule that respects its chunks, is such a run in the order of the schedule |
| JobLifecycle.PolicyAttempts | src/compute-job-queue/retry-policy.service.ts:79-85 | whatever is configured, every job type has at least one attempt, and a rejected policy falls back to the defaults |
| JobPolicies.BuiltIn | src/compute-job-queue/retry-policy.service.ts:25-85 | the policies in force without configuration, number by number |
| JobPolicies.ConfiguredIs | src/compute-job-queue/retry-policy.service.ts:174-245 | a configured policy with a whole number of attempts from one on, a known kind and a delay that is not negative holds as written; any other is passed over |
| JobLifecycle.CalculateRetryDelay | src/compute-job-queue/retry-policy.service.ts:90-134 | the successive clamps compute the delay function |
| JobPolicies.DelaySteps | src/compute-job-queue/retry-policy.service.ts:93-114 | the delay starts at the policy's and, from one attempt to the next, stays, grows by it, or is multiplied by the factor, two if none is set |
| JobPolicies.WaitIs | src/compute-job-queue/retry-policy.service.ts:116-133 | the wait is d plus a tenth of d times the draw, rounded down, where d is the delay if that keeps both bounds and else the bound not kept, the upper one if both cannot be |
| JobLifecycle.DelayGrows | src/compute-job-queue/retry-policy.service.ts:90-134 | without jitter and with no shrinking factor a later attempt never waits less |
| JobLifecycle.CapKeptIff | src/compute-job-queue/retry-policy.service.ts:121-133 | for any cap in force, every jitter draw respects it if and only if ten percent over the capped delay is at most the next whole number above the cap |
| JobLifecycle.Worker.constructor | src/compute-job-queue/queue.service.ts:64-70 | the dead-letter queue starts empty |
| JobLifecycle.Worker.MoveToDeadLetter | src/compute-job-queue/queue.service.ts:363-392 | adds one dead letter with the error and attempts made, or none when the queue refuses it |
| JobLifecycle.Worker.HandleComputeJob | src/compute-job-queue/compute-job.processor.ts:149-200 | returns a result, rethrows for a retry, or dead-letters the job exactly once and reports failure |
| JobLifecycle.Worker.ProcessJob | src/compute-job-queue/compute-job.processor.ts:149-200 | running a job until it returns or its budget is spent is the life function, dead letters included |
| JobLifecycle.LastRunIsFirst | src/compute-job-queue/compute-job.processor.ts:322-353 | the last run is the first one that succeeds, fails for good, or is the policy's last attempt |
| JobPolicies.HandledIs | src/compute-job-queue/compute-job.processor.ts:163-200 | the handler asks for another run after an error exactly when an attempt is left and the error neither is nor mentions one of the four it gives up on; otherwise it returns the result, or the failure |
| JobPolicies.JobEndsAt | src/compute-job-queue/compute-job.processor.ts:163-200 | a job with at least the policy's attempts ends with its first attempt that does not throw, throws one of those errors or is the last: with its result, or one dead letter holding that error and the attempts made before |
| JobLifecycle.JobNeverLost | src/compute-job-queue/compute-job.processor.ts:149-200 | with at least the policy's attempts a job runs exactly up to that run and leaves one dead letter if it failed, none otherwise |
| JobLifecycle.NeverLostIff | src/compute-job-queue/compute-job.processor.ts:322-330 | no sequence of outcomes loses a job if and only if the queue's attempts cover the policy's |
| JobLifecycle.SubmittedNeverLost | src/compute-job-queue/queue.service.ts:80-92 | a job submitted without an attempts option is never lost, whatever policies are configured |
| BatchJobs.OutcomeFailsIff | src/compute-job-queue/queue.service.ts:543-564 | for its batch a job fails if and only if it could not be added; an accepted one completes with its handler's result |
| BatchJobs.RowFailedIff | src/compute-job-queue/compute-job.processor.ts:172-199 | in every run a row is marked failed if and only if its job could not be added; a job dead-lettered by its handler is marked completed with the failure as its result |
| BatchJobs.AcceptedNeverStops | src/compute-job-queue/queue.service.ts:543-588 | a batch whose jobs can all be added counts no failure and never rejects, whatever its jobs come to |
| SseStream.SplitUnsplit | src/compute/openai-streaming.adapter.ts:46-48 | splitting at newlines loses nothing and no piece holds a newline |
| SseStream.SplitAppend | src/compute/openai-streaming.adapter.ts:46-48 | more text only resplits the unterminated rest, which is what the buffer holds |
| SseStream.ExecuteStream | src/compute/openai-streaming.adapter.ts:41-78 | for every cut of a text into chunks the events are those of the whole text |
| SseStream.ProcessLines | src/compute/openai-streaming.adapter.ts:50-77 | the loop over complete lines emits their events and stops at the end marker |
| SseStream.PrefixEvents | src/compute/openai-streaming.adapter.ts:41-78 | more text never takes back an event and adds none after the end marker |
| SseStream.TailIgnored | src/compute/openai-streaming.adapter.ts:46-48 | a tail without a newline yields nothing |
| SseStream.UpToDone | src/compute/openai-streaming.adapter.ts:50-77 | the events are, in order, the parsed payloads of the lines before the first end marker, and the stream ends there if there is one |
| SseStream.CarriageReturn | src/compute/openai-streaming.adapter.ts:51 | a line ending in CR LF means the same as one ending in LF |
| SseStandard.TextLines | src/compute/openai-streaming.adapter.ts:46-48 | the lines of section 9.2.6 of the WHATWG HTML Standard, which end at CR, LF or CR LF, are those that each of the parser's lines makes and those in its unterminated rest |
| SseStandard.PayloadIff | src/compute/openai-streaming.adapter.ts:51-60 | the parser takes from a line the payload that section 9.2.6 appends to the data buffer for it if and only if the trimmed line is one of the standard's lines, where it is a data line, and otherwise none of the standard's lines is a data field |
| SseStandard.PlainAgrees | src/compute/openai-streaming.adapter.ts:51-60 | without a CR that is: a data line with nothing to trim, or no data field |
| SseStandard.LoneCarriageReturn | src/compute/openai-streaming.adapter.ts:46-60 | two data fields separated by a lone CR are two values of the standard's and one payload of the parser's |
| SseStandard.EventsAre | src/compute/openai-streaming.adapter.ts:50-77 | the parser's events are what its payloads up to the first `[DONE]` parse to, and it stops there if there is one |
| SseStandard.StandardIff | src/compute/openai-streaming.adapter.ts:46-77 | on every text whose lines are read alike up to the first `[DONE]`, the payloads the parser takes up to it are the data of the events the standard dispatches up to it if and only if each of those events has a single data line and the last one is closed by a blank line |
| ToolCalls.AddFragment | src/compute/openai-streaming.adapter.ts:129-154 | one fragment grows the sparse array and appends to its own slot only |
| ToolCalls.AddFragments | src/compute/openai-streaming.adapter.ts:127-156 | a delta's fragments accumulate in order onto those before |
| ToolCalls.SlotHolds | src/compute/openai-streaming.adapter.ts:127-156 | slot k exists exactly when a fragment has index k, and its id, name and arguments are three separate joins of those fragments' texts, first to last |
| ToolCalls.ListedIs | src/compute/openai-streaming.adapter.ts:126-184 | the calls reported are those of the slots that carry any text, whole and by rising slot, or none at all |
| ToolCalls.FunctionIs | src/compute/openai-streaming.adapter.ts:119-187 | the function call has the names and the arguments of its fragments, each joined first to last, and is missing exactly when no delta has one |
| ToolCalls.CollectStreamResponse | src/compute/openai-streaming.adapter.ts:119-187 | the loop returns the collected response, or the error of reading a missing function call |
| ToolCalls.StreamWithCallback | src/compute/openai-streaming.adapter.ts:203-277 | the loop makes exactly these callbacks, in order |
| ToolCalls.CollectedIs | src/compute/openai-streaming.adapter.ts:119-187 | what is collected: the contents joined, the calls put together slot by slot and the function call, or a TypeError exactly when no delta has a function call |
| ToolCalls.CallbackIs | src/compute/openai-streaming.adapter.ts:203-277 | each delta with content, tool calls or a function call makes one callback with its own content and all calls joined so far; any other makes none |
| ToolCalls.CallsCarryContent | src/compute/openai-streaming.adapter.ts:203-277 | the content strings passed to onChunk concatenate to the whole content |
| ToolCalls.LastCallComplete | src/compute/openai-streaming.adapter.ts:203-277 | the last callback carries the tool calls and the function call of the whole stream |
| ToolCalls.LoopsAgree | src/compute/openai-streaming.adapter.ts:119-277 | collectStreamResponse returns if and only if some delta carries a function call, and then both loops agree on content, tool calls and function call |
| BonusPool.BonusService.constructor | src/quota/premium-feature-bonus.service.ts:139-182 | the service starts with the four default policies and their pools seeded |
| BonusPool.SeededStart | src/quota/premium-feature-bonus.service.ts:796-852 | a new service has no boosts, and an enabled policy and an unused pool of the same capacity for exactly the four default features |
| BonusPool.BonusService.GetOrCreatePool | src/quota/premium-feature-bonus.service.ts:740-757 | adds an empty pool if there is none, and gives it the capacity, clamped |
| BonusPool.BonusService.GiveBack | src/quota/premium-feature-bonus.service.ts:459-461 | takes a boost's units off its pool, not below zero, and resets the pool's capacity to the policy's |
| BonusPool.BonusService.GiveBackAll | src/quota/premium-feature-bonus.service.ts:767-772 | gives back every expired boost in turn |
| BonusPool.BonusService.EvictExpiredBoosts | src/quota/premium-feature-bonus.service.ts:759-780 | drops exactly the expired boosts of every user, and users left without any |
| BonusPool.BonusService.AllocateBoost | src/quota/premium-feature-bonus.service.ts:383-449 | evicts, then grants or refuses for a disabled policy, too many boosts or an exhausted pool, as the allocation function says |
| BonusPool.BonusService.RevokeBoost | src/quota/premium-feature-bonus.service.ts:451-481 | removes the first boost with the id and gives it back, or reports that there is none |
| BonusPool.BonusService.UpsertPolicy | src/quota/premium-feature-bonus.service.ts:347-381 | stores the policy and sets its pool's capacity |
| BonusPool.BonusService.ResetFeaturePool | src/quota/premium-feature-bonus.service.ts:589-603 | zeroes what the pool holds and has consumed |
| BonusPool.BonusService.RecordUsage | src/quota/premium-feature-bonus.service.ts:307-311 | counts the granted bonus as consumed in a pool that exists, up to its capacity |
| BonusPool.BonusService.BulkAllocateBoosts | src/quota/premium-feature-bonus.service.ts:492-542 | allocates in turn and counts the grants |
| BonusPool.BonusService.BulkRevokeBoosts | src/quota/premium-feature-bonus.service.ts:544-562 | revokes in turn |
| BonusPool.EvictAccounts | src/quota/premium-feature-bonus.service.ts:759-780 | a pool gives up exactly the units of the boosts evicted, stopping at zero |
| BonusPool.RevokeAccounts | src/quota/premium-feature-bonus.service.ts:451-481 | a pool gives up exactly the units of the boost revoked, stopping at zero |
| BonusPool.OpKeeps | src/quota/premium-feature-bonus.service.ts:383-603 | every operation keeps a pool within its live reservations, and all but a reset keep it equal to them |
| BonusPool.RunAccounts | src/quota/premium-feature-bonus.service.ts:383-603 | in every run what a pool holds is the sum of extraLimit over live boosts if the pool was never reset, and at most that sum otherwise |
| BonusPool.ResetRunsIff | src/quota/premium-feature-bonus.service.ts:383-603 | in a run from an unused pool, the pool holds exactly the sum of extraLimit over live boosts after every operation if and only if no live boost reserves units of it at any reset |
| BonusPool.GrantedFits | src/quota/premium-feature-bonus.service.ts:383-449 | a granted boost leaves its pool within capacity and adds exactly its units to what was held after eviction |
| BonusGrants.OutcomeIs | src/quota/premium-feature-bonus.service.ts:383-449 | a request is granted, for its units clamped to 0..500 000 until its minutes clamped to 1..43 200 from now, if and only if its feature's policy, or the default's when it has none, exists and is enabled, its user's unexpired boosts number fewer than the cap, and what the pool holds without the expired plus the units is at most the policy's capacity clamped to 100..10 000 000; each refusal occurs exactly when the first of these that fails is its own |
| BonusGrants.AllocatedIs | src/quota/premium-feature-bonus.service.ts:383-449 | afterwards every user has its unexpired boosts, a granted one its new boost behind them, and the pool of a granted request holds the units on top and has its policy's capacity |
| BonusGrants.SeededIs | src/quota/premium-feature-bonus.service.ts:796-852 | the four policies and pools of a new service, number by number |
| BonusGrants.RunOneEntry | src/quota/premium-feature-bonus.service.ts:383-481 | in every run the map of boosts has at most one entry for a user |
| BonusReturns.EvictedPoolIs | src/quota/premium-feature-bonus.service.ts:759-780 | eviction leaves the pool of a feature of which a boost has expired with its policy's capacity, that for 20 000 units without one, what it held less the expired units or nothing, and what it had counted; it leaves every other pool alone |
| BonusReturns.RevokedIs | src/quota/premium-feature-bonus.service.ts:451-481 | revoking an id that a boost has takes one such boost from its user and no other, and renews the pool of its feature likewise; any other id changes nothing |
| BonusReturns.UpsertedIs | src/quota/premium-feature-bonus.service.ts:347-381 | an upsert stores the policy with its capacity clamped to 100..10 000 000 and gives its pool, new or not, that capacity |
| BonusReturns.ResetIs | src/quota/premium-feature-bonus.service.ts:589-603 | a reset leaves a pool with its policy's capacity and nothing held or counted |
| BonusReturns.UsedIs | src/quota/premium-feature-bonus.service.ts:307-311 | a use with a bonus counts in a pool there is what the effective limit has over the base, up to the capacity |
| BonusReturns.BulkIs | src/quota/premium-feature-bonus.service.ts:492-542 | the number that a bulk allocation counts is how many of its requests are granted, each on what those before it left |
| BonusReturns.BulkInTurn | src/quota/premium-feature-bonus.service.ts:492-542 | requests in bulk are dealt with one by one, each on what those before it left |
| BonusPool.RunCapped | src/quota/premium-feature-bonus.service.ts:383-481 | in every run no user holds more boosts than the cap |
| BonusAdjustment.Smoother.constructor | src/quota/premium-feature-bonus.service.ts:120 | a smoother starts with no remembered multiplier |
| BonusAdjustment.Smoother.ApplySmoothing | src/quota/premium-feature-bonus.service.ts:702-709 | moves the remembered multiplier of one key toward the target by at most the step, clamped, and remembers it |
| BonusAdjustment.Walks | src/quota/premium-feature-bonus.service.ts:702-709 | under a constant target the multiplier after n decisions in closed form: full steps toward the target, then the target |
| BonusAdjustment.Converges | src/quota/premium-feature-bonus.service.ts:702-709 | the target is reached exactly from decision ceil(distance / step) on, without overshooting, in steps of at most the step size, inside [1, max] |
| BonusAdjustment.GrantBounds | src/quota/premium-feature-bonus.service.ts:257-273 | each limit lies between base and base plus what is left in the pool, and no burst is below its base |
| BonusAdjustment.GrantIs | src/quota/premium-feature-bonus.service.ts:257-273 | the limit rises by what the multiplier adds to the base, rounded with halves up, if positive, and the boosts, but by no more than is left; the burst is the higher of its base and the base at 0.6 of the same rate, rounded alike, plus the boosts |
| BonusAdjustment.PoolConsumes | src/quota/premium-feature-bonus.service.ts:257-311 | however adjustments and their recordings overlap, a pool of fixed capacity counts as consumed exactly what was recorded, cut off at its capacity |
| BonusAdjustment.PoolConsumesIff | src/quota/premium-feature-bonus.service.ts:257-311 | however capacity changes meanwhile, until a reset a pool counts at most what was recorded, and exactly that if and only if every recording with an effect found room for its bonus |
| BonusAdjustment.InTurnIff | src/quota/premium-feature-bonus.service.ts:257-311 | requests recorded one before the next, each with its own capacity, are granted in total exactly what the pool counts if and only if every one that raises a burst has a capacity that covers what was counted |
| BonusAdjustment.InTurnExact | src/quota/premium-feature-bonus.service.ts:257-311 | with one capacity throughout they are granted exactly what the pool counts, never more than was left in it |
| BonusOverlap.OverlapIff | src/common/guard/quota.guard.ts:116-206 | any number of requests adjusted before any is recorded are granted together at most what is left if and only if nothing is left, they want no more than that, or at most one of them wants anything |
| BonusOverlap.OverrunIff | src/common/guard/quota.guard.ts:116-206 | in every run of overlapping requests, changes of capacity and resets, no prefix counts and owes more than the capacity if and only if every adjustment wants no more than what is left less what is granted and unrecorded, or nothing is, and every new capacity covers both |
| BonusOverlap.GrantedAll | src/common/guard/quota.guard.ts:116-206 | such a run without a reset has granted exactly what the pool counted and what is unrecorded |
| BonusOverlap.OverlapOverruns | src/common/guard/quota.guard.ts:116-206 | two overlapping requests that want all that is left both get it, and the pool counts it once |
| BonusRequests.OpCounts | src/quota/premium-feature-bonus.service.ts:347-603 | no operation changes what a feature's pool counts, save a recording for it and its reset |
| BonusRequests.AsksIs | src/quota/premium-feature-bonus.service.ts:184-212 | a request first evicts, and reads the capacity of the policy its feature comes under if that is enabled |
| BonusRequests.GoesOnIs | src/quota/premium-feature-bonus.service.ts:257-264 | one that read a capacity gives the pool that capacity, clamped, and is granted what it wants but no more than the pool has not counted; one that read none is granted nothing |
| BonusRequests.NotesIs | src/quota/premium-feature-bonus.service.ts:307-311 | its recording counts the granted bonus, up to the capacity, exactly if limit or burst was raised |
| BonusRequests.GuardRefines | src/common/guard/quota.guard.ts:116-206 | in every run of the service, with requests that read the policy, await, go on and are recorded later among all other operations, a feature's pool counts and its requests are granted exactly what the run's events on that pool alone say |
| LimitScaler.UsageHistory.constructor | src/quota/dynamic-rate-limit-scaling.service.ts:251-272 | a history starts at multiplier 1 with no move and no bucket |
| LimitScaler.UsageHistory.ApplyGradualChange | src/quota/dynamic-rate-limit-scaling.service.ts:379-407 | one decision updates multiplier, direction and time of the last move as the decision function says |
| LimitScaler.UsageHistory.AddUsageEvent | src/quota/dynamic-rate-limit-scaling.service.ts:274-285 | counts the event in its bucket and drops buckets past the retention |
| LimitScaler.UsageHistory.GetRecentRate | src/quota/dynamic-rate-limit-scaling.service.ts:292-302 | the loop over the newest buckets returns their total as a rate |
| LimitScaler.RunBounds | src/quota/dynamic-rate-limit-scaling.service.ts:379-407 | in every run the multiplier stays within [minScale, maxScale] and moves at most maxStepChange per decision |
| LimitScaler.DecisionIs | src/quota/dynamic-rate-limit-scaling.service.ts:379-407 | over every run, decision k leaves the multiplier exactly where it was if the target is there, or if the last earlier decision that changed it went the other way less than the cooldown before; otherwise, and only then, it moves toward the target, by the lesser of the distance and the step |
| LimitScaler.TargetReached | src/quota/dynamic-rate-limit-scaling.service.ts:379-407 | a constant target that no recent reversal bars is walked to in full steps and reached in ceil(distance / step) decisions, from anywhere in any run |
| LimitScaler.OppositeMovesApart | src/quota/dynamic-rate-limit-scaling.service.ts:379-407 | any two moves in opposite directions, adjacent or not, are at least the cooldown apart |
| LimitScaler.ReversalsAreSignChanges | src/quota/dynamic-rate-limit-scaling.service.ts:388-405 | the reversals its memory sees are the changes of sign between the moves the multiplier actually makes |
| LimitScaler.ReversalsBounded | src/quota/dynamic-rate-limit-scaling.service.ts:379-407 | the number of changes of sign between the multiplier's moves, times the cooldown, is at most the elapsed time |
| LimitScaler.MapAgrees | src/quota/dynamic-rate-limit-scaling.service.ts:274-290 | for a clock that never runs backwards the pruned map agrees with the full event log on every bucket within the retention, and holds no other |
| LimitScaler.MapStaysSmall | src/quota/dynamic-rate-limit-scaling.service.ts:274-290 | after an event the map holds at most retention + 1 buckets |
| LimitScaler.TotalIsRecent | src/quota/dynamic-rate-limit-scaling.service.ts:292-302 | the total read off the map is the number of logged events in the window |
| LimitScaler.RateExact | src/quota/dynamic-rate-limit-scaling.service.ts:274-302 | for every log whose clock never runs backwards and every horizon up to the retention, the recent rate times the seconds that its buckets span is the number of logged events since the start of the earliest of them |
| LimitScaler.WidthIs | src/quota/dynamic-rate-limit-scaling.service.ts:292-302 | a horizon spans the least number of buckets that covers it, one at least |
| LimitScaler.RetentionIs | src/quota/dynamic-rate-limit-scaling.service.ts:274-290 | the buckets kept are the least number that covers ten minutes |
| Forecast.AddUp | src/observability/analytics-dashboard.service.ts:867-879 | one pass computes the four sums |
| Forecast.PredictNextValue | src/observability/analytics-dashboard.service.ts:862-890 | returns the forecast function's value on every list of points, the short ones included |
| Forecast.DenominatorClosed | src/observability/analytics-dashboard.service.ts:881-885 | the denominator is n²(n²-1)/12, so its guard against zero never fires for two points or more |
| Forecast.FitDecomposes | src/observability/analytics-dashboard.service.ts:881-889 | the squared error of any line is that of the fitted line plus the squared distance between the two |
| Forecast.FitIsLeast | src/observability/analytics-dashboard.service.ts:881-889 | the fitted line has the least squared error and is the only line that has it |
| Forecast.LineContinues | src/observability/analytics-dashboard.service.ts:862-890 | data on a line a + bx is forecast as max(0, a + b(n+1)) |
| Forecast.ForecastIs | src/observability/analytics-dashboard.service.ts:862-890 | two points or more are continued along the line that has the least squared error of all lines, cut off at zero; one point is repeated, and none gives zero |
| Trend.SampleStore.constructor | src/observability/analytics-dashboard.service.ts:137-141 | the store starts empty with its limit |
| Trend.SampleStore.RecordRateLimitDecision | src/observability/analytics-dashboard.service.ts:157-166 | appends the sample and drops the oldest beyond the limit |
| Trend.RecordAllKeepsNewest | src/observability/analytics-dashboard.service.ts:157-166 | after any log of samples the store is exactly its newest ones, in order |
| Trend.SampleStore.FillBuckets | src/observability/analytics-dashboard.service.ts:807-818 | the sweep puts every sample from start on into its bucket, in order, and nothing else |
| Trend.SampleStore.BuildTrend | src/observability/analytics-dashboard.service.ts:793-829 | the two sweeps return the trend function's series |
| TrendPoints.PointIs | src/observability/analytics-dashboard.service.ts:793-860 | point after point, one bucket apart, from the bucket of start to the bucket of now, each at a multiple of the bucket's length and worth the number of samples, refused samples or distinct users among the samples of its bucket not before start |
| TrendPoints.LengthIs | src/observability/analytics-dashboard.service.ts:800-805 | a bucket is an hour, a day or a week in milliseconds |
| TrendPoints.StartIs | src/observability/analytics-dashboard.service.ts:799 | a series goes back the days asked for, one at least |
| Trend.SeriesTotal | src/observability/analytics-dashboard.service.ts:820-860 | a series of counts sums to what its buckets hold: nothing is lost or counted twice |
| Trend.TrendCounts | src/observability/analytics-dashboard.service.ts:793-860 | with no sample from the future, hits sum to the samples with start <= timestamp <= now and exceeded to the blocked ones among them, at every granularity |
| Trend.TrendExactIff | src/observability/analytics-dashboard.service.ts:793-860 | in general hits are exact if and only if no sample newer than now shares the last bucket, and exceeded if and only if none of those was blocked |
| Csv.ReadRecords | src/observability/analytics-dashboard.service.ts:1062-1068 | an RFC 4180 section 2 reader recovers every record of a printed table of nonempty records |
| Csv.RoundTrip | src/observability/analytics-dashboard.service.ts:1062-1068 | headers and rows with any quotes, commas and newlines come back exactly |
| Csv.RoundTripIff | src/observability/analytics-dashboard.service.ts:1062-1068 | they come back if and only if every record has a field |
| Csv.PrinterInjective | src/observability/analytics-dashboard.service.ts:1062-1068 | two tables of nonempty records that print alike are equal |
| CsvFormat.PrinterWrites | src/observability/analytics-dashboard.service.ts:1062-1068 | the text is every field in quotes, each quote in it twice, a comma between two fields and a line end between two records |
| CsvFormat.ParseIff | src/observability/analytics-dashboard.service.ts:1062-1068 | the reader that the round trips speak of finds given records in a text if and only if the text writes them as section 2 of RFC 4180 has it, with LF between records, each field quoted or, without quotes, commas and line ends, bare |
| Canonical.CanonFinds | src/compute/compute.service.ts:15-48 | canonical fields are sorted by key and hold, under every key not skipped, the canonical form of its value |
| CanonicalKeys.FormHolds | src/audit/provenance.service.ts:405-425 | under each key, spelled out: for the hash nothing under `timestamp`, `createdAt`, `updatedAt`, `id` and `__proto__`, sorted nothing under `__proto__`, and under any other key the canonical form of its value |
| CanonicalKeys.ArrayHolds | src/audit/provenance.service.ts:410-412 | arrays keep length and order; for the hash each entry takes its canonical form, and sorting leaves entries as they are |
| CanonicalKeys.FormOrdered | src/compute/compute.service.ts:40-45 | fields stand by key: array indices first, by value, then by the first unit at which two keys differ |
| Canonical.CanonIff | src/compute/compute.service.ts:15-48 | two values have one canonical form if and only if they are equal up to key order and skipped fields |
| Canonical.CanonKeepsIff | src/audit/provenance.service.ts:405-425 | a canonical form is the value itself up to key order if and only if no skipped key occurs where it looks |
| Canonical.CanonIdempotent | src/audit/provenance.service.ts:405-425 | taking a canonical form twice changes nothing more |
| Canonical.SortKeeps | src/compute/compute.service.ts:15-48 | sortObjectKeys is idempotent, and keeps every field if and only if no object outside arrays has a `__proto__` field |
| Canonical.NormalizeIff | src/audit/provenance.service.ts:405-425 | normalizeForHash is idempotent, and identifies two values if and only if they differ only in key order and skipped fields, at every depth, arrays included |
| Canonical.ComputeService.constructor | src/compute/compute.service.ts:9-10 | the service starts without results |
| Canonical.ComputeService.CreateComputeResult | src/compute/compute.service.ts:60-77 | stores the hash of the normalised result under the id |
| Canonical.ComputeService.VerifyResult | src/compute/compute.service.ts:89-99 | accepts exactly when the id is known and the hashes of the normalised texts agree |
| Canonical.VerifyIff | src/compute/compute.service.ts:15-99 | a text is accepted for a stored one if and only if both are JSON and equal up to key order outside arrays, or neither is JSON and they are equal |
| GridWorld.GridWorldEnvironment.constructor | simulation-environments/grid-world.environment.ts:98-105 | a world starts with its grid, no agents, zero score and zero steps |
| GridWorld.GridWorldEnvironment.AddAgent | simulation-environments/grid-world.environment.ts:317-340 | the loop over drawn spots settles the agent on the first empty one, throws at one off the grid, and otherwise goes on drawing |
| GridWorld.GridWorldEnvironment.ExecuteAction | simulation-environments/grid-world.environment.ts:347-397 | the in-place moves and collections are the action function, and the result says whether the action succeeded |
| GridWorld.GridWorldEnvironment.MoveAgents | simulation-environments/grid-world.environment.ts:195-210 | the loop lets every agent act once, in order, or none when paused |
| GridWorld.GridWorldEnvironment.Step | simulation-environments/grid-world.environment.ts:188-221 | counts the step, lets every agent act in turn unless paused, and goes on exactly while resources are left before step 1000 |
| GridWorld.GridWorldEnvironment.Run | simulation-environments/grid-world.environment.ts:126-186 | the loop is the run function; its report is always "max-steps-reached" and not terminated |
| GridWorld.MovedCells | simulation-environments/grid-world.environment.ts:386-394 | a move cell by cell: the old cell is emptied and then the new one is marked, also when they are the same |
| GridMoves.MoveIs | simulation-environments/grid-world.environment.ts:353-394 | a move leads one cell toward row zero, the last row, column zero or the last column, or nowhere at an edge; an obstacle refuses it, otherwise the agent is there, its new cell marked, its old one empty and all else as it was |
| GridMoves.CollectIs | simulation-environments/grid-world.environment.ts:369-378 | a resource scores its value, or one if it has none or zero, for the agent and the world, and is gone; anywhere else nothing happens |
| GridMoves.SuccessIs | simulation-environments/grid-world.environment.ts:369-396 | an action succeeds if and only if it is a move that no obstacle blocks or collects a resource |
| GridMoves.StepIs | simulation-environments/grid-world.environment.ts:188-210 | a step lets every agent act once, first to last, on what the one before left, or none when paused |
| GridMoves.GoesOnIs | simulation-environments/grid-world.environment.ts:212-220 | a world goes on exactly while some cell is a resource and fewer than 1000 steps were made |
| GridMoves.PlaceIs | simulation-environments/grid-world.environment.ts:317-340 | the first spot that is not taken decides: the agent is settled there with nothing collected and all else as it was, or the addition throws if it is off the grid |
| GridWorld.ActKeeps | simulation-environments/grid-world.environment.ts:347-397 | an action keeps obstacles, score and marks, and removes exactly the resource the agent ends up on |
| GridWorld.NeverCollects | simulation-environments/grid-world.environment.ts:369-378 | an agent that stands on no resource cannot collect |
| GridWorld.ActMoves | simulation-environments/grid-world.environment.ts:353-394 | only the acting agent moves, one cell at most and not diagonally, and its score stays |
| GridWorld.AllMarkedIff | simulation-environments/grid-world.environment.ts:381-394 | where every agent's cell is marked as its own, an action keeps it so if and only if it is refused or no other agent stands on the cell it moves to |
| GridWorld.RunKeeps | simulation-environments/grid-world.environment.ts:126-221 | a whole run keeps all that an action keeps; the resources lost are exactly those on the agents' trail |
| GridWorld.RunStops | simulation-environments/grid-world.environment.ts:141-157 | a run ends within its limit, at step 1000 at the latest once it makes a second step, and below its limit only when resources ran out, step 1000 was reached, time was up or it was paused |
| GridMoves.RunIs | simulation-environments/grid-world.environment.ts:137-157 | a run makes steps of all agents until it has as many as configured, a thousand if none, or until after one no resource is left, step 1000 is reached, time is up or it was paused; and not one step more |
| GridWorld.SettledMarksIff | simulation-environments/grid-world.environment.ts:329-339 | adding an agent keeps every mark naming an agent that stands there if and only if it leaves no mark of the same id behind |
| GridWorld.LifeOfAWorld | simulation-environments/grid-world.environment.ts:126-397 | for every sequence of additions, steps and runs from a fresh grid: agents on the grid and off obstacles, obstacles unchanged, resources lost exactly on the trail, all scores zero, and with distinct ids every mark names an agent standing there |
| GridWorld.ActAccounts | simulation-environments/grid-world.environment.ts:369-376 | in any world, an action adds to the global score exactly what it adds to the agents' scores |

## Left out

- Controllers, modules, DTOs, migrations, guards, email, metrics, tracing: plumbing without an algorithm.
- Redis, Bull, TypeORM, ethers and axios: a queue is "run again after a throw while attempts are left", a table a sequence with a unique key, the chain a value read by height.
- Numerics with exponentials, logarithms or sines (training, decay curves, seeded random, price noise): the values they produce are inputs.
- `src/indexer/scalable-indexer.service.ts`, `src/cache/cache.service.ts`, `src/quota/rate-limiter.service.ts`: the components they delegate to are not part of this model.
- Governance timelocks, policy lookup order, plugin status, provider registry, compliance scoring: would only add easy members.
- Floating-point rounding: `real` everywhere.
- Indexer.IndexerService.RunOnce: is about polls whose loop comes to an end (Indexer.ScanEndsIff), and does not model a log that fails to be processed, nor overlapping timers; a log's data and further topics are one word.
- Indexer.PollExact: is about polls with a safe block and chains whose logs have distinct keys, and asks that the rollback reach the rows above the head; Indexer.PollExactIff says that this is exactly what is needed.
- Market.MarketSimulation.Step: order ids, timestamps, events, and the loop of `run` with its stop after day 365 are not modelled, and neither is pausing in the middle of a step.
- BatchQueue.Reachable: is about one submission per batch id (a second one replaces the stored progress), and batches and queue ids with which the search cannot miss (Sound and Harmless, which BatchSearch.MissReachableIff shows to be exact); two ids generated in one millisecond, job timeouts and the priority and group defaults copied into the job data are not modelled.
- BatchQueue.QueueService.AddBatchJob: performs one schedule, in which a chunk drains before its rejection is caught; the machine behind BatchQueue.Reachable also lets rows end after the rejection, and a cancellation come at any time.
- JobLifecycle.SubmittedNeverLost: does not cover an options object whose attempts field is present but undefined, which replaces the policy's number by the queue's own default; no caller passes one.
- JobLifecycle.Worker.ProcessJob: what a job computes, the cache behind it and events to other components are one outcome per attempt.
- SseStream.ExecuteStream: chunks are text already decoded; a cut inside a multi-byte character and transport errors are not modelled.
- SseStandard.StandardIff: is about text without the byte-order mark that the standard drops from its start, and about lines that are read alike one by one.
- ToolCalls.StreamWithCallback: callbacks see the tool calls by value, while the code hands out objects that later deltas go on changing.
- BonusPool.RunAccounts: boosts are valued by extraLimit alone; analytics and audit entries kept beside them are not modelled.
- BatchRepeats.OwnRecordIff: is about batch and queue ids without any mark, so that rows are confused by their numbers alone; BatchSearch.MissReachableIff is about ids with marks.
- BonusAdjustment.GrantBounds: the tier, referral and adaptive multipliers and the learning state are one number per request.
- LimitScaler.RateExact: averages, predictions and the feedback window are not modelled.
- Trend.TrendExactIff: metrics that are rounded rates, alerts and the rest of the dashboard are not modelled.
- Canonical.VerifyIff: numbers are integers; uuid and metadata of a result, and the record hash of provenance (which includes the current time), are not modelled.
- GridWorld.LifeOfAWorld: coordinates are integers, energy and the event log are not modelled, and neither is tearing the world down during a run.
