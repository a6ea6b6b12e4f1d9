# Trading SDK: order placement, paper trading and decimals

A Dafny model of the parts of a Binance trading SDK that carry state and arithmetic, with proofs about every input,
every run and every interleaving. `dafny verify dfyconfig.toml` checks it.

## What is modelled

- **Idempotent order placement.** `Placement` is the protocol: the manager between two `await`s as a state, the wire and
  the exchange as sets of messages, and events that interleave freely: placements, arrivals, losses, replies, polls,
  reconciliations, cancellations. What the exchange and the transport are trusted with is the predicate
  `Placement.Allowed`; that API errors are true and that answers and requests can be read are parameters of it
  (`Trust`). `PlacementSafety` proves what holds in every run, `PlacementLimits` that the conditions on ids, ledger size
  and readability are exact. `ExecutionBooks` says what is written down, and proves that the nested submission and
  polling loops are the protocol's pieces; `ExecutionManagement` is the manager as an object with its maps and its
  mutable executions; `ExecutionRecords` says field by field what its records hold and which a report reaches.
- **Stream reports.** `StreamFills`: one report, any number of reports, convergence of fills and average price.
  `StreamTotals`: what reports leave in every field, told from the reports alone.
- **The paper backend.** `PaperBackend` and the object `PaperAdapter`: the simulator as an exchange for the manager, and
  what replays come to on it; `PaperDesk`: what it refuses, shows and reports; `PaperOverlap`: placements that overlap.
- **Paper accounting.** `PaperAccounting` (functions), `PaperFills` (one fill), `PaperMargin` (margin and refusals),
  `PaperLedger` (every run against a cash ledger), `PaperAwaits` (orders and refreshes that overlap) and `PaperEngine`
  (the engine object). Numbers are reals; the dust cutoff is a parameter of at least zero.
- **Book walk.** `BookWalk`: the greedy fill, its optimality, and limit orders.
- **Exits.** `ExitPlan` (the exit rules over a position's life) and `ExitSession` (the rules driving the engine).
- **Decimals.** `Truncation`, `Digits`, `FixedPoint`, `DecimalText`, `DecimalPrint`, `Vwap`: scaled integers, truncating
  division, the parser and the printers, division, rounding and averages.
- **Schema ordering.** `SchemaOrder`: the worklist that orders interfaces before they are emitted.
- **HTTP retries.** `HttpRetry`: which requests are sent again, against a network that may lose replies, and what the
  outcome tells. `OrderTransport` derives from it what the placement protocol may trust a submission with.

Objects whose methods update fields are classes here; each method is proved against a function on values, and the
properties are proved of those functions. A placement in the manager class reads its replies from a script (what each
submission and each poll would be answered), so its results hold for every sequence of answers.

## Where the code and its comments differ

The model follows the code.

- `.5` parses to 0.05: the digit added at src/core/decimal.ts:71 is not counted at line 72.
- `div` promises half-even (src/core/decimal.ts:104) but cuts ties toward zero (line 113); `mul` promises exactness
  (line 99) but drops what is behind 18 places.
- A 5xx with a body is an API error (src/client/HttpClient.ts:447), which the manager records as a rejection
  (src/execution/ExecutionManager.ts:273) although the request may have been processed.
- An answer that cannot be parsed (src/resources/FuturesTrading.ts:46-52, src/resources/SpotTrading.ts:18-20) or whose
  numbers cannot be read (src/execution/ExecutionManager.ts:340) escapes without a record after the order was accepted,
  and the next placement of the intent submits it again. Readable answers are part of the exact condition for at most
  one order, and each placement that ends without a record accounts for at most one order more.
- Quantity and price of the request are read while the record is built (src/execution/ExecutionManager.ts:282-283,
  330-331, 380-381, 409-410 and 455-456). If one is not a decimal, building throws and nothing is recorded, though the
  order may exist; the paper adapter accepts what `Number` makes finite, and does not look at the price of a market order
  (src/execution/paper.ts:67-74). Readable requests are part of the exact conditions.
- A cancellation files a record under its own intent (src/execution/ExecutionManager.ts:148-182), so it takes a place in
  the ledger and can evict a placement.
- Client order ids keep at most 24 characters of an intent, and evicted intents can be submitted again
  (src/execution/ExecutionManager.ts:248 and 504-507); both limits are proved to be exact. Callers can give ids of their
  own (line 121), and one intent placed under two of them at once is submitted twice.
- Every terminal exit is said to leave the position flat (src/agent/exits.ts:12-16), but `applyExit` books the decided
  quantity even when the order filled less; the position is flat exactly when the fills come to its size.
- Closing orders lock no margin, but are refused all the same while the available balance is negative
  (src/paper/PaperTradingEngine.ts:165-171). A realized loss larger than the margin it releases makes it so; commissions
  are never taken from it (lines 177-181).
- The second profit can be taken before the first when its level lies before it (src/agent/exits.ts:97-102).
- The ordering does not count `Array<X>` properties (scripts/wave8-strict-schemas.ts:187) although they are emitted as
  references (lines 140-141), and it lets self references through. Its error speaks of unresolved references (line 199),
  which lines 187-188 have filtered out.

## Model

| member | source | states |
|---|---|---|
| PlacementLimits.AtMostOnceIff | src/execution/ExecutionManager.ts:119-138 | over every interleaving of placements, cancellations, arrivals, lost messages, replies, polls and reconciliations, no two orders exist under one client order id, if and only if nothing is placed, or no id belongs to two intents, the ledger is large enough for all intents, those of cancellations included, every answer to a submission can be read, and so can quantity and price of every request; whether API errors are true makes no difference |
| PlacementLimits.OnePerIntentIff | src/execution/ExecutionManager.ts:120-121 | no two orders exist for one intent in any run, if and only if moreover no intent is placed under two client order ids, which callers can give |
| PlacementLimits.UnrecordedErrorDoubles | src/resources/FuturesTrading.ts:46-52 | an order whose answer cannot be parsed is accepted without a record, and placing its intent again creates a second order under the id |
| PlacementLimits.UnreadableRequestDoubles | src/execution/ExecutionManager.ts:455-456 | an order is acknowledged, but the quantity or price asked for is not a decimal: building the record throws, and placing the intent again creates a second order under the id |
| PlacementLimits.TwoIdsDouble | src/execution/ExecutionManager.ts:120-127 | one intent placed under two ids before either is answered is submitted twice, and both orders are accepted |
| PlacementSafety.EveryRunIsAtMostOnce | src/execution/ExecutionManager.ts:254-356 | with different ids and no eviction, in every run, however often intents are replayed, each id has at most one order, and at most one more for every placement under it that ended without a record; at most one where every request and answer under it could be read |
| PlacementSafety.UnrecordedIff | src/execution/ExecutionManager.ts:282-297 | the submissions counted as unrecorded are there exactly if, and at most as often as, placements in the run ended without a record |
| PlacementSafety.ReadableIsRecorded | src/execution/ExecutionManager.ts:282-297 | a placement that went out ends without a record only if its request or an answer to it could not be read |
| PlacementSafety.OutcomesAreTrue | src/execution/ExecutionManager.ts:268-353 | in every reachable state an acked or reconciled record of a placement means exactly one order exists under its id, a rejected one, if API errors are true, that none exists or can still arrive, an unknown one at most one; orders of placements that ended without a record, and only those, come on top |
| PlacementSafety.SendsAreJustified | src/execution/ExecutionManager.ts:290-298 | every submission of an id except one was preceded by its own proof that nothing had been created, a -2013 lookup or an error raised before sending, or by a placement of its own that had ended without a record |
| PlacementSafety.RunSafe | src/execution/ExecutionManager.ts:119-138 | the joint invariant of ledger, in-flight map, wire and exchange holds in every reachable state, whatever is trusted of API errors, answers and requests |
| PlacementSafety.NextSafe | src/execution/ExecutionManager.ts:254-433 | every single step, whichever piece of whichever placement runs next, keeps that invariant |
| PlacementSafety.ResendSafe | src/execution/ExecutionManager.ts:363-397 | the second submission keeps the invariant, because -2013 means that nothing sent under the id exists or is on its way |
| PlacementLimits.CollisionDoubles | src/execution/ExecutionManager.ts:247-252 | two different intents with one derived id have a trusted run in which both orders are accepted |
| PlacementLimits.EvictionDoubles | src/execution/ExecutionManager.ts:501-507 | one intent more than the ledger holds, filed by placements or by cancellations: the oldest is forgotten, and replaying it creates a second order under its id |
| PlacementLimits.FileMany | src/execution/ExecutionManager.ts:501-507 | filing distinct intents one after the other, by placements or cancellations, leaves exactly the newest of them on file |
| ExecutionBooks.LoopsAreThePieces | src/execution/ExecutionManager.ts:254-433 | the two nested loops, submissions around polls, end in the execution that the protocol pieces, run one after the other from any phase, end in |
| ExecutionBooks.PlacementIsPlayedOut | src/execution/ExecutionManager.ts:119-138 | a whole uninterrupted placement leaves the ledger, the id index and the in-flight map as starting, playing out and releasing it in the protocol does |
| ExecutionBooks.FileIsRecord | src/execution/ExecutionManager.ts:501-507 | filing an execution, eviction included, is the record step of the protocol |
| ExecutionBooks.ReconcilingIsTheEvent | src/execution/ExecutionManager.ts:217-227 | a reconciliation whose answer is about the order asked for is the reconciliation event of the protocol |
| ExecutionBooks.CancellingIsTheEvent | src/execution/ExecutionManager.ts:144-211 | a cancellation of an unknown intent that does not throw is the cancellation event of the protocol, and one that throws leaves the books alone |
| ExecutionBooks.ReportsKeepOutline | src/execution/ExecutionManager.ts:536-607 | a stream report changes nothing the placement protocol depends on, whether its handler throws midway or not |
| ExecutionBooks.SubmittedIds | src/execution/ExecutionManager.ts:435-499 | whatever the replies, the filed execution carries its intent, and its client order id when the adapter echoes it |
| ExecutionBooks.OutcomeHasEvidence | src/execution/ExecutionManager.ts:268-353 | for every request and every script of replies: an acked record is built from the acknowledgement, a rejected one answers an API error, a reconciled one is the order of the first poll that counts, an unknown one has no answer or a second -2013, and nothing is recorded exactly when the request cannot be read, whatever the replies, or an error escapes that is neither API nor network error |
| ExecutionBooks.SecondSubmissionOnlyIfAbsent | src/execution/ExecutionManager.ts:290-295 | unless the first reply was lost and the first answered poll said -2013, no second submission has any influence |
| ExecutionBooks.FirstAnswerDecides | src/execution/ExecutionManager.ts:370-397 | polling recovers exactly when its first answer is the order, reports absence exactly when it is -2013, and otherwise gives up, recorded as unknown exactly if the request can be read; an order found counts as an answer only if the request can be read |
| ExecutionBooks.QuantitiesAreReported | src/execution/ExecutionManager.ts:443-462 | quantities in an execution have the reported values, and absent ones stay absent |
| ExecutionBooks.DerivedIdsCollideIff | src/execution/ExecutionManager.ts:247-252 | two intents get the same client order id exactly when, dashes aside, they agree on the characters that fit: 24, or fewer behind a long prefix |
| ExecutionBooks.DerivedIdParts | src/execution/ExecutionManager.ts:247-252 | a derived id is at most 36 characters: the cut prefix followed by the kept characters |
| ExecutionBooks.DerivedIdsAreSafeIff | src/execution/ExecutionManager.ts:247-252 | with derived ids there is at most one order an id in every run, and likewise at most one an intent, exactly when nothing is placed, or the kept characters of the intents differ, the ledger holds them and those of the cancellations, and answers and requests can be read |
| ExecutionManagement.ExecutionManager.PlaceOrder | src/execution/ExecutionManager.ts:119-138 | a known intent returns its record and changes nothing, an id in flight is joined, anything else is submitted under the given or the derived id, and what it returns or throws and files is the specification that `PlacementReturnsIff` and `KnownIntents` are about; the in-flight map is as it was |
| ExecutionManagement.PlacementReturnsIff | src/execution/ExecutionManager.ts:254-433 | a new placement returns exactly when its request can be read and the deciding submission is acknowledged or, its reply lost, the first answered poll found the order: that order, under the id it shows, and the execution just filed. A rejection throws and is filed as such, an unknown outcome likewise, and exactly an unreadable request, an unreadable answer or an error before sending throws with nothing filed |
| ExecutionManagement.KnownIntents | src/execution/ExecutionManager.ts:120-127 | an intent on record gives exactly its record, one whose id is in flight joins that placement, and neither changes the books |
| ExecutionManagement.ExecutionManager.SubmitWithReconciliation | src/execution/ExecutionManager.ts:254-356 | at most two submissions; the books afterwards are those of the specification, for every script of replies and for requests that can be read or not |
| ExecutionManagement.ExecutionManager.RecoverByClientOrderId | src/execution/ExecutionManager.ts:363-433 | polls in order up to the limit: the first order found is filed as reconciled, the first -2013 files nothing, running out files the outcome as unknown; a request that cannot be read makes every order found go unheard and running out throw |
| ExecutionManagement.ExecutionManager.Reconcile | src/execution/ExecutionManager.ts:217-227 | no record, a failed lookup and an unreadable order are three different errors that change nothing; otherwise the record is replaced by the order shown |
| ExecutionManagement.ExecutionManager.CancelOrder | src/execution/ExecutionManager.ts:144-211 | an intent on record is answered from there; an acknowledged cancellation, an order already gone, and an order found after a lost reply are filed, cancelled or of unknown state; any other failure leaves the books alone |
| ExecutionRecords.CancelRecordsIff | src/execution/ExecutionManager.ts:149-209 | a cancellation under a new intent is recorded exactly when it is acknowledged, answered by -2011 or -2013, or, its reply lost, the order is looked up and read; the record tells of that order, and counts as reconciled exactly if it is canceled or expired; otherwise it throws and files nothing |
| ExecutionRecords.CancelKnown | src/execution/ExecutionManager.ts:148-150 | under an intent on record the record is returned and nothing changes |
| ExecutionRecords.ReconcilesIff | src/execution/ExecutionManager.ts:217-227 | a reconciliation replaces the record exactly when there is one and the order can be looked up and read, and each of its three errors has its own cause |
| ExecutionRecords.FilingKeepsPlaces | src/execution/ExecutionManager.ts:501-507 | filing under an intent on record replaces it in its place; a new one goes to the end, and only when the ledger is full the oldest goes, and no other |
| ExecutionRecords.ViewTells | src/execution/ExecutionManager.ts:435-499 | a record built from an order has its status, order id, fills and totals, under the given intent and client order id |
| ExecutionRecords.ViewAverage | src/execution/ExecutionManager.ts:632-645 | its average price is quote over quantity, to the nearest decimal, and where that is zero the average the order shows, if that is not zero |
| ExecutionRecords.EmptyRecords | src/execution/ExecutionManager.ts:274-352 | rejected and cancelled records have executed nothing, of an unknown outcome no quantity is known |
| ExecutionRecords.ReadableIff | src/execution/ExecutionManager.ts:443-499 | an order can be read exactly when its totals parse, and so does the average it shows wherever quote over quantity gives nothing |
| ExecutionRecords.RepliesMean | src/execution/ExecutionManager.ts:266-297 | what each answer, API error, network failure and other error means for a submission and for a lookup |
| ExecutionManagement.ExecutionManager.Record | src/execution/ExecutionManager.ts:501-507 | the execution is filed under its intent and id; beyond the limit exactly the oldest key goes |
| ExecutionManagement.ExecutionManager.OnExecutionReport | src/execution/ExecutionManager.ts:536-607 | for any report, readable or not: only the execution filed for the id changes, up to the first text that does not parse, where it throws; an unknown or empty id changes nothing |
| ExecutionRecords.HearsAlone | src/execution/ExecutionManager.ts:536-543 | of all records a report changes exactly the one its client order id is filed for, and it changes no order or index |
| ExecutionRecords.FiledIsHeard | src/execution/ExecutionManager.ts:501-543 | a report reaches the record filed last under its id, while it is on file |
| ExecutionManagement.ExecutionManager.DeriveClientOrderId | src/execution/ExecutionManager.ts:247-252 | dashes stripped, cut to 24, prefixed, cut to 36 |
| ExecutionRecords.DerivedIdIs | src/execution/ExecutionManager.ts:247-252 | behind a prefix of up to 11 characters an id is the prefix, a dash and the first 24 kept characters; behind any prefix it is at most 36 long |
| ExecutionRecords.DashesLeftOut | src/execution/ExecutionManager.ts:248 | dashes are left out of an intent in place, wherever they stand |
| ExecutionManagement.Execution.ApplyReport | src/execution/ExecutionManager.ts:536-600 | the in-place updates of one report, in the order of the code and up to the one that throws, come to the specification |
| ExecutionManagement.Execution.PushFill | src/execution/ExecutionManager.ts:548-572 | a trade is appended unless its positive id is already on record |
| StreamFills.ReportsConverge | src/execution/ExecutionManager.ts:536-600 | any two deliveries of the same trades, in any order, with any repetition and whichever of them throw, leave the same multiset of fills, for every starting record; and the same average price unless the last report of one of them threw |
| StreamFills.AppliedOrReported | src/execution/ExecutionManager.ts:536-600 | a report adds its fill and leaves intent, ids and state alone whether it throws or not, and if it does not throw the updates come to one record in which they do not disturb each other |
| StreamFills.NumericReportsNeverThrow | src/execution/ExecutionManager.ts:576-600 | no sequence of numeric reports on a numeric record ever throws, and the record stays numeric |
| StreamTotals.ReportsReachTheRecord | src/execution/ExecutionManager.ts:544-586 | after any reports, whichever of them threw: the status is the last one given, the order id the first known, the executed quantity has the value of the last that parses, and so has the cumulative quote once there was one |
| StreamTotals.QuoteIsEstimated | src/execution/ExecutionManager.ts:579-588 | where no quote was known and none is ever reported, it is there exactly if some report found both a quantity and an average, and is the product of the two at the first such report |
| StreamTotals.AverageOfTotals | src/execution/ExecutionManager.ts:589-600 | behind a report that did not throw, a record without fills has quote over quantity for its average, to the nearest decimal |
| StreamTotals.RecordCarriesAverage | src/execution/ExecutionManager.ts:601-603 | and a record with fills has their notional over their quantity |
| StreamTotals.AverageIsQuoteOverQuantity | src/execution/ExecutionManager.ts:632-645 | the helper gives quote over quantity, else a fallback that is not zero, else nothing |
| StreamTotals.AverageOfFills | src/execution/ExecutionManager.ts:646-655 | the average of fills is their notional over their quantity, and there is none where the quantities cancel out |
| StreamTotals.FillIsReported | src/execution/ExecutionManager.ts:549-572 | a report with a trade not known by a positive id adds one fill with its price, quantity, commission, asset and trade id; any other report adds none |
| StreamFills.ReportsApplyOnce | src/execution/ExecutionManager.ts:549-572 | fills on record stay in front, and behind them stands each reported trade exactly once |
| StreamFills.FromEmptyExactlyTheTrades | src/execution/ExecutionManager.ts:549-572 | from an empty record the fills are exactly the trades reported, without repetition |
| StreamFills.ReplayAddsNothingIff | src/execution/ExecutionManager.ts:549-572 | delivering a report again adds no fill exactly when it carries no trade or its trade id is positive |
| StreamFills.RestFillCountedTwice | src/execution/adapter.ts:132-141 | a fill from a REST reply has no trade id, so the report of the same trade is added beside it |
| StreamFills.WeightedAverageOfPermutation | src/execution/ExecutionManager.ts:646-655 | the average price does not depend on the order of the fills |
| StreamFills.ComputeWeightedAverage | src/execution/ExecutionManager.ts:646-655 | the loop prints the volume-weighted average of the fills, the value `vwap` computes |
| PaperBackend.ReplaysChangeNothing | src/execution/paper.ts:48-142 | with room in the ledger, any sequence of placements leaves the account and the orders that the requests of each intent up to the first readable one leave at the bare desk, so replays of recorded intents, rejected ones included, change nothing; exactly the intents with a readable request are on record |
| PaperBackend.DeskSeesReaching | src/execution/ExecutionManager.ts:119-138 | for every ledger size and every sequence of placements: which requests reach the desk, and which intents are on record in which order, is told from the requests alone, by the newest readable requests |
| PaperBackend.ReplayRunsAgainIff | src/execution/ExecutionManager.ts:504-507 | of requests with different intents, replaying the first reaches the desk again exactly when it could not be read or more of them than the ledger holds could be read |
| PaperBackend.UnreadablePriceFillsTwice | src/execution/paper.ts:71-74 | a market order with a price that is not a number, placed twice under one intent, is filled twice, and the manager has no record of either |
| PaperBackend.PaperSessionsAreTrusted | src/execution/paper.ts:48-161 | every session of placements on the paper backend is a run of the placement protocol with API errors true and answers readable, and requests readable if they are; it mirrors the ledger and the orders |
| PaperBackend.PaperOutcomesAreTrue | src/execution/paper.ts:48-161 | so on the paper backend every execution is acked or rejected, an acked one has its order at the desk, and a rejected one has none there unless a request under its id could not be read |
| PaperBackend.FillsAreNotDoubled | src/execution/paper.ts:123-140 | in every such sequence each filled execution holds exactly the one fill of its order and each rejected one none, even after eviction, as long as no two intents share an id |
| PaperBackend.ReportTouchesOtherIff | src/execution/paper.ts:123-140 | the fill report of a placement adds a fill to a recorded execution exactly when the two intents share an id |
| PaperBackend.PlaceTouchesOtherIff | src/execution/paper.ts:123-140 | a whole placement adds a fill to the record of another intent exactly when they share an id, and leaves the other records alone |
| PaperBackend.CreatedShape | src/execution/paper.ts:99-117 | a created order is on file under its id with one fill, and the other orders are untouched |
| PaperBackend.ReportIsIgnored | src/execution/paper.ts:123-140 | the report that precedes the acknowledgement finds no execution to update |
| PaperAdapter.PaperExecutionAdapter.CreateOrder | src/execution/paper.ts:48-142 | the checks in order with codes -1102, -1116 and -1013, engine refusals as -2019, otherwise the order on file, the reply and the report |
| PaperAdapter.PaperExecutionAdapter.FetchOrder | src/execution/paper.ts:144-151 | an order is found by its id and its upper-cased symbol, else -2013 |
| PaperAdapter.PaperExecutionAdapter.CancelOrder | src/execution/paper.ts:163-172 | always -2011: orders fill at once |
| PaperDesk.RefusedWith | src/execution/paper.ts:48-96 | which error an order meets, -1102, -1116, -1013 or -2019, each exactly when; every other order is filled |
| PaperDesk.CreatedShows | src/execution/paper.ts:84-140 | a filled order is the last of the account, as asked for and as quoted, on file under its id, and shown and reported with its numbers |
| PaperDesk.FoundIff | src/execution/paper.ts:144-151 | an order is found under its id and its symbol in any case, as it was shown, else -2013 |
| PaperAdapter.PlaceOnPaper | src/execution/paper.ts:48-142 | the manager object and the adapter object together take the joint state where the session function says |
| PaperOverlap.OverlapIsAProtocolRun | src/execution/paper.ts:48-142 | any interleaving of the pieces of placements, in the manager, the adapter and the engine, is a run of the placement protocol, and the fills of the engine are its accepted messages |
| PaperOverlap.FillsOncePerId | src/execution/paper.ts:48-142 | so however placements and replays overlap, the simulator fills an id at most once, when ids are not shared, the ledger has room and requests can be read |
| PaperOverlap.FillsAreOrders | src/paper/PaperTradingEngine.ts:184-201 | those fills are the orders of the account, one each |
| PaperOverlap.UninterruptedIsPlace | src/execution/paper.ts:48-142 | without overlap the five pieces are one placement of a session |
| PaperLedger.EquityIsLedger | src/paper/PaperTradingEngine.ts:175-182 | in every run balance plus unrealized profit is the initial balance plus, over all fills, signed quantity times (mark minus price), less fees, less the value of wiped dust; extend, reduce, close and flip alike |
| PaperLedger.EquityWithoutDust | src/paper/PaperTradingEngine.ts:208-289 | where no fill wiped dust, that is the plain cash ledger over the fills |
| PaperLedger.EquityIgnoresOrder | src/paper/PaperTradingEngine.ts:208-289 | runs with the same trades, in any order and whatever positions they met, and the same marks are worth the same together with the dust they lost, and without it if no fill wiped any |
| PaperLedger.ReorderedOrdersAreWorthTheSame | src/paper/PaperTradingEngine.ts:208-289 | the same orders and refreshes in any two sequences, every order accepted and the same marks in the end, leave accounts of the same worth, dust included |
| PaperLedger.EquityIsTrades | src/paper/PaperTradingEngine.ts:208-289 | with the dust it lost, an account is worth the initial balance plus what its trades come to at the marks |
| PaperLedger.RunKeeps | src/paper/PaperTradingEngine.ts:128-202 | the joint invariant of balances, margins, marks, positions and ledger holds after every sequence of orders and refreshes |
| PaperLedger.AvailablePlusMargins | src/paper/PaperTradingEngine.ts:175-182 | available balance plus all margins is balance plus all commissions charged, and exactly the balance without a fee model |
| PaperLedger.FeesWithinRates | src/paper/models.ts:225-236 | at prices of at least zero, what the flat fee schedule has charged after any run lies between its lower and its higher rate on everything turned over |
| PaperLedger.FeeIsCharge | src/paper/models.ts:231-235 | a market order is charged the taker rate and a limit order the maker rate on what it turned over |
| PaperLedger.BalanceIsRealizedProfit | src/paper/PaperTradingEngine.ts:251-279 | balance minus realized profit is always the initial balance, and the orders add up to the realized profit |
| PaperLedger.PositionsInEveryRun | src/paper/PaperTradingEngine.ts:208-279 | a side is NONE exactly at quantity zero, then with no margin and no entry price; signed quantity is the sum of signed fills less wiped dust |
| PaperLedger.DustIsBounded | src/paper/PaperTradingEngine.ts:269-277 | a fill never wipes more than the cutoff, and nothing at cutoff zero |
| PaperLedger.RefusalChangesNothing | src/paper/PaperTradingEngine.ts:137-173 | a refused order moves no balance, no position and no history; it can only list an empty position |
| PaperLedger.OrdersTellTheLedger | src/paper/PaperTradingEngine.ts:184-201 | in every run the order history is the ledger: one order a fill, numbered without gaps, with its side, size, price and commission |
| PaperFills.FillConserves | src/paper/PaperTradingEngine.ts:208-279 | one fill, whether it opens, extends, reduces, closes or flips: signed quantity, book value, realized profit and margin all balance, up to the dust it wipes |
| PaperMargin.MarginInEveryRun | src/paper/PaperTradingEngine.ts:235-279 | in every run whose orders on a symbol ask for one leverage, margin times leverage is the size of the position at its entry price, and an open position carries that leverage |
| PaperMargin.FillLocksMargin | src/paper/PaperTradingEngine.ts:208-279 | at any leverage: opening and extending lock quantity times price over leverage, closing in part releases in proportion and to dust everything, a flip locks for the remainder alone |
| PaperMargin.RefusedIff | src/paper/PaperTradingEngine.ts:137-173 | which refusal an order meets; for balance exactly when what it fills beyond closing the opposing position, at the fill price, exceeds leverage times available balance and slack |
| PaperMargin.OrderIsAsPlaced | src/paper/PaperTradingEngine.ts:184-199 | an accepted order is recorded under the next number with its symbol, side, type, size, fill, price and status |
| PaperMargin.LeverageTenExample | src/paper/PaperTradingEngine.ts:251-253 | balance 1000, one unit at 100, leverage 10: margin 10, available 990 |
| PaperFills.ReduceNeverFlips | src/paper/PaperTradingEngine.ts:223-232 | an opposing fill no larger than the position leaves it on its side or flat |
| PaperFills.MarkedProfit | src/paper/PaperTradingEngine.ts:281-289 | marking changes the unrealized profit to signed quantity at the mark less book value, and nothing else |
| PaperEngine.AnyCalls | src/paper/PaperTradingEngine.ts:89-313 | any sequence of calls on the engine object reaches the state of the run, so its own fields satisfy the cash ledger |
| PaperEngine.PaperTradingEngine.PlaceOrder | src/paper/PaperTradingEngine.ts:128-202 | every refusal in its order, otherwise the new account of the specification |
| PaperEngine.PaperTradingEngine.PositionFor | src/paper/PaperTradingEngine.ts:120-126 | an unknown symbol gets an empty position, a known one its own |
| PaperEngine.PaperTradingEngine.ApplyFill | src/paper/PaperTradingEngine.ts:208-233 | the position record and the three balances move as the specification of a fill says |
| PaperEngine.PaperTradingEngine.OpenExposure | src/paper/PaperTradingEngine.ts:235-254 | opening or extending: the averaged entry and the margin that `PaperMargin` is about |
| PaperEngine.PaperTradingEngine.ReduceExposure | src/paper/PaperTradingEngine.ts:257-279 | reducing: profit booked, margin released in proportion, dust wiped |
| PaperEngine.PaperTradingEngine.MarkToMarket | src/paper/PaperTradingEngine.ts:281-289 | only the unrealized profit of the position changes |
| PaperEngine.PaperTradingEngine.RecomputeTotals | src/paper/PaperTradingEngine.ts:291-297 | the loop computes the sum over all positions |
| PaperEngine.PaperTradingEngine.UpdatePositions | src/paper/PaperTradingEngine.ts:300-312 | an uninterrupted refresh: open positions whose price arrived are re-marked, others keep their last mark |
| PaperEngine.OverlappingCalls | src/paper/PaperTradingEngine.ts:128-312 | orders and refreshes that overlap at their awaits leave the engine object where a run without overlap leaves it, up to the two totals |
| PaperAwaits.OverlapIsARun | src/paper/PaperTradingEngine.ts:128-312 | however orders and refreshes overlap, the account is that of a run without overlap, up to the two totals, and in these too whenever they have just been recomputed |
| PaperAwaits.OverlapAnswersAlike | src/paper/PaperTradingEngine.ts:156-202 | every order in an overlap is refused or accepted, and numbered and priced, as in that run |
| PaperAwaits.EquityInOverlap | src/paper/PaperTradingEngine.ts:300-312 | at any moment of an overlap the balance plus the profit carried by the positions is the cash ledger over the fills |
| DecimalText.ParseIsFloor | src/core/decimal.ts:47-89 | a literal with an integer digit, of any fraction length and exponent, parses to its sign times floor(|value| * 10^18) |
| DecimalText.ParseIsFloorIff | src/core/decimal.ts:71-72 | that holds of a literal exactly when it has an integer digit or its scaled value is below one |
| DecimalText.ParseWithoutIntegerDigit | src/core/decimal.ts:71-72 | without an integer digit a tenth of the scaled value comes out |
| DecimalText.PointFiveExample | src/core/decimal.ts:71-72 | ".5" parses to 0.05 and "0.5" to 0.5 |
| DecimalText.ExponentShifts | src/core/decimal.ts:62-76 | the exponent moves the point to the right, behind a minus sign to the left, by its digits |
| DecimalText.MinusNegates | src/core/decimal.ts:53-59 | a minus sign negates what is parsed |
| DecimalText.TrimIs | src/core/decimal.ts:48 | trimming takes white space alone off both ends until none is left there |
| DecimalText.ParseAcceptsIff | src/core/decimal.ts:48-51 | text is accepted exactly when, trimmed, it spells a literal of the grammar |
| DecimalText.SplitComplete | src/core/decimal.ts:49 | a literal is matched with its own groups and no others |
| DecimalText.Parse | src/core/decimal.ts:47-89 | the parser with its padding, prefixing and slicing computes the specified value or error |
| DecimalText.AlignPoint | src/core/decimal.ts:76-86 | padding, prefixing and slicing move the digits to exactly 18 places, dropping what is behind them |
| DecimalPrint.ToStringRoundTrip | src/core/decimal.ts:194-208 | parsing what `toString` prints gives the same decimal, for every scaled integer |
| DecimalPrint.ToStringInjective | src/core/decimal.ts:194-208 | different decimals print differently |
| DecimalPrint.ToStringCanonical | src/core/decimal.ts:194-208 | no plus sign, exponent, superfluous zero at either end, or negative zero is ever printed |
| DecimalPrint.ToStringNeverNegativeZero | src/core/decimal.ts:194-208 | "-0" is never printed |
| DecimalPrint.ToFixedRoundTrip | src/core/decimal.ts:211-223 | parsing `toFixed(dp)` gives `round(dp)` for every dp of at least zero; a negative dp is an error |
| DecimalPrint.ToFixedShape | src/core/decimal.ts:211-223 | exactly dp fraction digits, and a point only when dp is positive |
| DecimalPrint.ToString | src/core/decimal.ts:194-208 | the printer with its scan for trailing zeros computes the specified text |
| DecimalPrint.ToFixed | src/core/decimal.ts:211-223 | so does the fixed-point printer |
| FixedPoint.DivIsNearestTiesToZero | src/core/decimal.ts:105-118 | `div` returns c exactly when c is the nearest decimal to the quotient with ties toward zero; a zero divisor is an error |
| FixedPoint.DivIsHalfEvenIff | src/core/decimal.ts:104-113 | the half-even rounding its comment promises is kept exactly when the quotient is not a tie with odd truncation |
| FixedPoint.DivTieExample | src/core/decimal.ts:104-113 | 3 units divided by 2 give 1 unit where half-even gives 2 |
| FixedPoint.MulIsTowardZero | src/core/decimal.ts:99-102 | `mul` returns c exactly when c is the product to 18 places with the rest dropped, toward zero |
| FixedPoint.MulIsExactIff | src/core/decimal.ts:99-102 | the exact multiplication its comment promises is kept exactly when 10^18 divides the product of the scaled integers |
| FixedPoint.MulDropsExample | src/core/decimal.ts:99-102 | 10^-9 times 5 * 10^-10 gives zero |
| FixedPoint.RoundIsHalfEven | src/core/decimal.ts:178-192 | `round(dp)` returns y exactly when y is the half-even rounding to dp places |
| FixedPoint.RoundError | src/core/decimal.ts:178-192 | rounding moves a value by at most half a unit of the kept place |
| FixedPoint.RoundIdempotent | src/core/decimal.ts:178-192 | rounding twice is rounding once |
| FixedPoint.RoundOdd | src/core/decimal.ts:178-192 | rounding commutes with negation |
| FixedPoint.RoundMonotone | src/core/decimal.ts:178-192 | rounding preserves order |
| Vwap.AverageWithinPrices | src/core/decimal.ts:251-262 | the average never exceeds the highest price, and falls below the lowest by at most n * 10^18 / Q + 1/2 units |
| Vwap.AverageBelowLowestExample | src/core/decimal.ts:251-262 | it can fall below the lowest price |
| Vwap.AverageOfPermutation | src/core/decimal.ts:251-262 | the average does not depend on the order of the fills |
| Vwap.AverageIsNearest | src/core/decimal.ts:251-262 | the average is the nearest decimal to notional over quantity, ties toward zero, and none at quantity zero |
| Vwap.Compute | src/core/decimal.ts:251-262 | the loop computes the average, none for a zero total |
| BookWalk.WalkIsOptimal | src/paper/models.ts:116-130 | any other way of taking the same total from the book costs a BUY at least as much and earns a SELL at most as much |
| BookWalk.QuoteIsBest | src/paper/models.ts:105-157 | no allocation of the filled quantity has a better average price than the quote |
| BookWalk.QuoteIsAttained | src/paper/models.ts:132-157 | the price of an accepted quote is the average of an allocation of the filled quantity; with the row above, it is the best price at which the book can give that quantity |
| BookWalk.SpreadIsPaidExample | src/paper/models.ts:132-157 | asks at 100, bids at 99: one unit bought costs 100, whatever the mark |
| BookWalk.RejectedFillsNothing | src/paper/models.ts:129-149 | a rejected quote fills nothing |
| BookWalk.QuoteFills | src/paper/models.ts:105-157 | an accepted quote fills min(requested, side depth), is FILLED exactly when that is everything, and never averages worse than the limit |
| BookWalk.LimitRefusedOnlyIfUnavoidable | src/paper/models.ts:138-149 | a limit order is accepted whenever some allocation of the fillable quantity averages within its limit |
| BookWalk.AcceptedIff | src/paper/models.ts:132-157 | an order is accepted exactly when some way of taking the fillable quantity from the levels averages within its limit |
| BookWalk.WithoutBookIsInstant | src/paper/models.ts:105-114 | without a book the quote is that of the instant model |
| PaperModels.InstantFillsInFull | src/paper/models.ts:45-50 | a market order fills at the mark and a limit order at its limit, in full |
| BookWalk.GreedyFills | src/paper/models.ts:121-130 | the walk takes no more than each level has and fills what was asked or all there is |
| BookWalk.SortLevelsSorts | src/paper/models.ts:116-119 | the levels walked are a permutation of the book side, best price first |
| BookWalk.Walk | src/paper/models.ts:121-130 | the loop computes total and notional of that allocation |
| BookWalk.Quote | src/paper/models.ts:105-157 | the quote with its fallback and both refusals |
| SchemaOrder.Order | scripts/wave8-strict-schemas.ts:179-200 | the nested loops end; they succeed exactly when names are distinct and counted dependencies have no cycle; the output is a permutation with dependencies first; otherwise the left over names are reported |
| SchemaOrder.Sweep | scripts/wave8-strict-schemas.ts:185-195 | one pass of the inner loop, and its progress flag says whether anything was emitted |
| SchemaOrder.SucceedsIff | scripts/wave8-strict-schemas.ts:183-200 | success exactly when names are distinct and no counted dependencies form a cycle of length two or more |
| SchemaOrder.SuccessIsTopological | scripts/wave8-strict-schemas.ts:183-196 | on success the output is a permutation of the input with every counted dependency before its user |
| SchemaOrder.CountedIff | scripts/wave8-strict-schemas.ts:187-188 | which references count: the element of an array interface, and a property whose whole text is a word, if an interface has that name |
| SchemaOrder.TargetsComeFirst | scripts/wave8-strict-schemas.ts:183-196 | on success each of those stands before the interface that names it |
| SchemaOrder.BareReferenceExample | scripts/wave8-strict-schemas.ts:187-189 | A with a property B comes after B, whichever is read first |
| SchemaOrder.StuckIff | scripts/wave8-strict-schemas.ts:197-199 | an interface is left over exactly when a chain of counted dependencies leads from it into a cycle |
| SchemaOrder.StuckNames | scripts/wave8-strict-schemas.ts:198 | the error lists exactly the left over names |
| SchemaOrder.LoadSafeInEveryOrderIff | scripts/wave8-strict-schemas.ts:175-189 | the promise that every reference comes after its target holds for every order of an acyclic input exactly when each reference the emitted text makes is to another interface that counted dependencies lead to |
| SchemaOrder.ArrayReferenceExample | scripts/wave8-strict-schemas.ts:187 | an Array property puts no edge, and its target may be emitted after it |
| SchemaOrder.ArrayInterfaceExample | scripts/wave8-strict-schemas.ts:229-230 | an array interface mentions its element alone: its own Array property is never printed |
| SchemaOrder.UnresolvedReferenceExample | scripts/wave8-strict-schemas.ts:187-188 | an input with an unresolved reference succeeds, although the error text at line 199 speaks of such references |
| SchemaOrder.UnresolvedNeverCounts | scripts/wave8-strict-schemas.ts:187-199 | with all unresolved references left out of the input, the same names are emitted in the same order and the same names are left over, so none of them is ever the cause of the error |
| ExitPlan.LifeAccounts | src/agent/exits.ts:81-124 | what was closed and what remains make up the original size; until the end exactly 1, 0.6, 0.7 or 0.3 of it remains by the profits taken, then nothing; with laddered levels the second profit implies the first |
| ExitPlan.LifeNeverOvercloses | src/agent/exits.ts:81-124 | for any size and levels the exits never close more than the original, nor less than it by more than one dust cutoff |
| ExitPlan.ExitKinds | src/agent/exits.ts:81-111 | a terminal exit takes exactly what remains; a partial one is a profit not taken before, of 0.4 or 0.3 of the original, bounded by what remains |
| ExitPlan.ExitIff | src/agent/exits.ts:81-111 | which exit fires, when and for how much, on prices, times and percentages: stop, time, first and second profit, and the trailing stop exactly when the second profit is taken and the price has given back its percentage of the extremum |
| ExitPlan.EntryIsFresh | src/agent/exits.ts:50-64 | a plan starts with all of the entry, at its price and levels, with no profit taken |
| ExitPlan.HighWaterIsExtremum | src/agent/exits.ts:66-71 | over every life the extremum is the entry price or an observed price, and none observed is more favourable |
| ExitPlan.SecondProfitFirstIff | src/agent/exits.ts:97-102 | the second profit can be taken before the first exactly when it lies strictly before it and the first is clear of the stop |
| ExitPlan.ManagedPosition.ApplyExit | src/agent/exits.ts:119-124 | the mutation of remaining size and flags |
| ExitPlan.ManagedPosition.UpdateHighWater | src/agent/exits.ts:67-71 | only the extremum moves, toward the side of the position |
| ExitSession.ExitsNeverReverse | src/agent/exits.ts:81-124 | whatever the prices, the quotes and the rest of the account, exits of a matching open position never reverse it, and the engine always holds what the plan has left to close |
| ExitSession.FullExitsTrack | src/agent/exits.ts:113-124 | when exits fill in full, the size in the engine is the remaining size of the plan |
| ExitSession.EndedIsFlat | src/agent/exits.ts:12-16 | when exits fill in full, a plan that has ended leaves the position flat, with no margin and no entry price |
| ExitSession.FlatIffFilled | src/agent/exits.ts:12-16 | in every permitted session, at its end as at any time, the position is flat exactly when what the exits filled comes to the original size up to the dust cutoff; otherwise exactly the rest is open, on the same side |
| ExitSession.PartialExitLeavesOpen | src/agent/exits.ts:113-124 | a terminal exit that fills in part ends the plan and leaves the rest open |
| ExitSession.HalfFilledStopExample | src/agent/exits.ts:119-124 | one unit, a stop and half a fill: the plan has ended and half a unit is open |
| ExitSession.ExitRefusedIff | src/paper/PaperTradingEngine.ts:161-171 | an exit is refused for balance exactly when the available balance is below minus the slack, that is when the margins locked exceed the balance and all fees by more than the slack |
| ExitSession.ClosingRefusedExample | src/paper/PaperTradingEngine.ts:257-279 | without fees: balance 200, two sold at 100, one bought back at 300; available is -100 and the order closing the rest is refused |
| ExitSession.BookQuotesArePermitted | src/paper/models.ts:105-157 | quotes off a sound book never fill more than the exit asked for, and accepted ones fill the smaller of that and the depth of the side it takes from |
| ExitSession.ExitOrderCloses | src/agent/exits.ts:113-118 | an exit is a market order against the side of the position for the decided quantity |
| HttpRetry.ProcessedAtMostOnce | src/client/HttpClient.ts:311-338 | under the strict policy a POST or PUT whose lower-cased path starts with no lower-cased prefix of the list is processed at most once, and only by the last attempt |
| HttpRetry.ResentOnlyIfTurnedAway | src/client/HttpClient.ts:330-338 | under the strict policy such a request is sent again only after 429 or 418 |
| HttpRetry.SentAgainIff | src/client/HttpClient.ts:304-338 | a request is sent again exactly when attempts are left, it got no response or 429, 418, 500, 502, 503 or 504, and it was turned away by 429 or 418, or the policy is legacy, or it is no POST or PUT off the list |
| HttpRetry.StrictResends | src/client/HttpClient.ts:324-338 | so under the strict policy a GET, a DELETE or a listed path is sent again after each of those, everything else after 429 and 418 alone, and nothing after any other status |
| HttpRetry.SurfacesAs | src/client/HttpClient.ts:438-450 | as which error a failed request surfaces, by status and body, and with which code |
| HttpRetry.AttemptsBound | src/client/HttpClient.ts:395 | there are never more than maxRetries + 1 attempts |
| HttpRetry.GivesUpOnlyIfFinal | src/client/HttpClient.ts:395 | a request that may be repeated is given up before the limit only after success, an unexpected error or another status than 429, 418, 500, 502, 503 and 504 |
| HttpRetry.LastIff | src/client/HttpClient.ts:340-419 | the last attempt is the first that calls for no other |
| HttpRetry.ProcessedTwiceIff | src/client/HttpClient.ts:324-338 | a request can be processed twice exactly when retries are allowed and the policy is legacy or it is no POST or PUT off the list |
| HttpRetry.OutcomeTells | src/client/HttpClient.ts:438-450 | what an unsafe request tells its caller: among networks that look the same, it may have been processed unless the outcome is a rate limit, and may not have been unless the outcome is data |
| HttpRetry.RejectionMayBeFalseIff | src/client/HttpClient.ts:438-450 | a rejection may be false, some network that looks the same having processed the request, exactly when it is an API error and not a rate limit |
| HttpRetry.FalseRejectionExample | src/client/HttpClient.ts:443-447 | a 503 with a body, to a request that was processed, surfaces as an API error after one attempt |
| HttpRetry.OrderPlacementIsUnsafe | src/client/HttpClient.ts:79 | placing and changing an order, on any of the three order paths, is not on the default list |
| HttpRetry.HttpClient.RequestWithRetry | src/client/HttpClient.ts:340-454 | the recursion makes the attempts that `SentAgainIff` is about, surfaces the last one, and restores the pending count on every path |
| HttpRetry.HttpClient.ConfigureRetry | src/client/HttpClient.ts:197-209 | only the settings given change, delays and factor included |
| HttpRetry.OnlyGivenChange | src/client/HttpClient.ts:197-209 | each of the five settings is the one given, or if none is given the one there was |
| OrderTransport.SubmissionIsAllowedIff | src/resources/FuturesTrading.ts:46-52 | a submission through the client meets what the placement protocol trusts its reply with exactly when an API error, where it is to be final, was not processed, and an answer, where it is to be readable, parses |
| OrderTransport.SubmissionIsSafeIff | src/resources/SpotTrading.ts:18-20 | from what the client sees alone: the reply meets it on every network that looks the same exactly when it is no API error that has to be final and no answer that has to be readable and does not parse |
| OrderTransport.OutcomeSettles | src/execution/ExecutionManager.ts:266-297 | an answer that parses settles a submission as acknowledged, an API error or a rate limit as rejected, a network failure has the order looked up, and an answer that does not parse leaves no record |

## Left out

- ExecutionManagement.ExecutionManager.PlaceOrder: runs without interruption in the class; interleaving is in `Placement`, on values, tied to the class by `ExecutionBooks.PlacementIsPlayedOut`. A joined placement returns the task it joins, not that task's later outcome. A missing intent id (a random UUID) is a parameter.
- Requested quantity and price of an execution, except whether they can be read: their printed values are copied through and only the risk gateway reads them.
- Symbol, side, type, timestamps and raw replies of an execution: copied through, never read by the modelled code.
- Risk gateway, event bus, audit sinks, rate-limit tracking, delays between polls and retries.
- PaperBackend.ReplaysChangeNothing: how a real number prints is a parameter that yields a numeral, and "0" only for zero; side text other than BUY and SELL is not modelled; sessions consist of placements, while the effect of cancellations on the ledger is in `Placement`.
- Report listeners other than the manager, and `listOrderRecords`.
- PaperEngine.PaperTradingEngine.UpdatePositions: one uninterrupted refresh; refreshes that overlap with orders and with each other are `PaperAwaits` and `PaperEngine.OverlappingCalls`.
- PaperEngine.PaperTradingEngine.PlaceOrder: price and quote are parameters, since they come from the network and the execution model.
- Floating point: rounding of doubles in the engine, the book walk and the exits, `Decimal.from` of a number, and the six-digit rounding of exit sizes in the example loop.
- `LatencyModel`, `SlippageModel`, `PartialFillModel` and `CompositeModel`: delay, randomness and single expressions; that a composition only shrinks the quantity is not true of the code, which passes the original quantity to each stage.
- Upper and lower case outside ASCII; exponents beyond the range where `parseInt` is exact.
- HttpRetry.HttpClient.RequestWithRetry: signing, headers, URL building and the limiter; settings do not change while a request is being retried.
- `sub`, `neg`, `abs`, comparisons, `min` and `max` of decimals: one expression each.
- SchemaOrder.Order: parsing of the oracle file and the emitted text, except which names it refers to.
- SchemaOrder.LoadSafeInEveryOrderIff: field overrides, which replace the printed type of a property, and two properties of one name, of which the first is printed.
- REST resources, WebSocket platform, local order book, MCP server and the other scripts and examples.
