# Verified model of the joker trading core

This project models the truth layer of the joker paper-trading system and the
deterministic control code around it, and proves what that code promises. It is
Dafny 4.11; `dafny verify dfyconfig.toml` checks all of it.

What is modelled, component by component:

- **Execution ledger.** An append-only stream of order, fill, fee and correction events is
  projected into orders, positions and profit (`LedgerEvents`, `Projection`, `Projector`).
  `Projection` says what each event means; `Projector` holds the mutable orders and
  positions and the loop that fills them in place, proved to compute exactly that. On top
  stand what an order and a position say about their history (`OrderLaws`, `PositionLaws`),
  accounting (`Accounting`), fill safety (`FillSafety`), replay and interleaving (`Replay`),
  the store's table (`Store`), the broker comparison (`Reconciliation`, `StatusWords`,
  `Consistency`, `ReportLaws`), and the corrections that feed back into the same fold (`Corrections`,
  `Repair`, `RepairTheorem`, `OrderRepair`).
- **Bar builder.** One-minute and five-minute bars built side by side from one feed
  (`Bars`, `BarBuilder`), conservation and exactly-once emission (`BarConservation`), the
  relation between the two timeframes (`BarDominance`), and what each bar and finding says
  about the feed (`BarLaws`).
- **Event bus.** The asyncio bus as a transition system, one step for what runs between two
  suspension points (`EventBus`, `BusTheorems`), and the object whose methods take those
  steps (`InProcessBus`).
- **Control code.** The reducers that join parallel graph branches (`Reducers`), the
  batched option-surface fetch (`SurfaceFetch`), the trailing stop (`ExitManager`), the
  sliding-window limiter (`RateLimiter`), the cognitive cycle's loop and submission gate
  (`CognitiveGraph`), the model router and its durable call records (`Router`,
  `CallRecords`), and the option symbol printer and parser (`OptionSymbols`).

Conventions that hold throughout:

- Decimals and floats are exact reals; UUIDs are natural numbers; instants are integers
  (microseconds for bars, exchange-local seconds for exits).
- Where the code sorts on the ISO text of a time, the model uses that text's rank.
- Where the code iterates over a dictionary, the order is a parameter or an explicit field,
  so each statement holds for every order.
- Calls out of the modelled code (providers, agents, loaders, gateways, the broker, clocks)
  are oracles or parameters, and statements hold for all of their answers, raising included.
- An exception the code lets out is an explicit result, never a precondition.

Ten places where the code does less than its comments or names suggest. The model keeps the
code as it is, states exactly when the promise holds, and shows an input on which it fails:

- `joker/ledger/projector.py:315` says filled never exceeds submitted without a correction.
  A resubmission, a submission of zero and an overfill permission break it:
  `FillSafety.OverfillRuleOverHistories`, failing in `FillSafety.TenFiveThreeOverfills`.
- A correction from a broker fill of zero does not restate the order to zero, because zero is
  read as absent (`joker/ledger/reconciliation.py:96`), and a restated fill can bring a status
  the broker's word does not fit: `OrderRepair.OrdersRepairedExactly`, failing in
  `OrderRepair.ZeroFillKeepsItsMismatch`.
- Where such a broker order also carries the projection's own word for an order without fills,
  rounds of corrections never come to rest: the fill makes the order partly filled, the word takes
  that back, and so on: `OrderRepair.RoundsSettleExactly` and `OrderRepair.LedgerSettlesExactly`,
  failing in `OrderRepair.SubmittedAndPartlyFilledInTurn`.
- The bus calls its handlers isolated and `drain` complete (`joker/events/bus.py:20-23`,
  `joker/events/bus.py:116-117`). An exception that `except Exception` does not catch, such as a
  cancellation inside a handler, skips the remaining handlers, ends the correlation's worker and
  strands its queue: `BusTheorems.IsolationExactly`, `BusTheorems.LookingIdleIsDispatched` and
  `BusTheorems.DrainableExactly`, failing in `BusTheorems.DrainOverlooksTheEscape` and
  `BusTheorems.NextEventIsStranded`.
- The trail equals its closed form only while the giveback is at most everything:
  `ExitManager.ClosedFormExactly`, failing in `ExitManager.RatchetOutlivesClosedForm`.
- The late-day floor under the stop is dropped after 16:00 (`joker/execution/exit_manager.py:107-111`),
  so with a later end of day a position is held below a stop it has had:
  `ExitManager.LateDayExactly`, failing in `ExitManager.DefaultsAndALaterEnd`.
- A result obtained after escalation is never completed on record, so the next request under
  its key pays again: `Router.RepetitionsAreFreeExactly`, failing in `Router.EscalationIsPaidAgain`.
- A request whose key an open row of another request owns succeeds without leaving a record,
  which is how a crashed call looks when it is made again: `Router.ReusableAfterwardsExactly`,
  failing in `Router.RetryUnderOpenKeyIsLost`.
- A stored result says one attempt, however many repairs it took: `Router.ReusedResultExactly`,
  failing in `Router.RepairsAreForgotten`.
- A call's attempt count starts over on escalation: `Router.AttemptsAreCallsExactly`, failing in
  `Router.ThreeCallsTwoAttempts`.

## Model

| member | source | states |
|---|---|---|
| Projector.ProjectEvents | joker/ledger/projector.py:83-109 | the loop over mutable orders and positions returns exactly the projection that the event-by-event meaning of the stream gives, for every stream |
| Projector.Apply | joker/ledger/projector.py:111-228 | one event updates, in place, only the order and the position it names, each to what the event means for it |
| Projector.CapitalUsage | joker/ledger/projector.py:97-101 | the capital of the open priced positions, whatever order they are visited in |
| Projector.MutableOrder.Fill | joker/ledger/projector.py:161-183 | a fill adds the applied quantity, moves the status, and reports how much it applied |
| Projector.MutableOrder.AccumulateFill | joker/ledger/projector.py:305-331 | the new average is the quantity-weighted mean, and overfill is clamped unless allowed |
| Projector.MutableOrder.Correct | joker/ledger/projector.py:236-252 | a correction restates status or filled quantity and nothing else |
| Projector.MutablePosition.ApplyFill | joker/ledger/projector.py:333-372 | opens, grows or closes the position, an opposing fill being clamped to what is held |
| Projector.MutablePosition.Resize | joker/ledger/projector.py:374-388 | what is held after any change costs the weighted mean of what was held and the change, a position from nothing costs the price, and nothing held has no average |
| Projector.MutablePosition.Correct | joker/ledger/projector.py:253-263 | a correction sets quantity and openness, and drops the average at zero |
| Projector.AddFees | joker/ledger/projector.py:400-420 | a fee goes to the order and the position once each, and only some events create the position for it |
| Projection.RunConcat | joker/ledger/projector.py:89-94 | projecting a stream is projecting its parts one after the other |
| Projection.CapitalSplit | joker/ledger/projector.py:97-101 | the capital sum does not depend on the order of the positions |
| Projection.CapitalOfUnion | joker/ledger/projector.py:97-101 | capital of disjoint sets of positions adds up |
| Accounting.FillBalances | joker/ledger/projector.py:333-398 | every single fill, opening, growing or closing, keeps profit equal to net cash plus the cost of what is held |
| Accounting.AccountingIdentity | joker/ledger/projector.py:333-398 | for every stream without position corrections for a contract, realised profit is 100 times net cash plus 100 times quantity times average; quantity is non-zero exactly when open and exactly when an average exists |
| Accounting.NoSignFlip | joker/ledger/projector.py:359-366 | no event but a correction takes a contract from long to short or back, from any ledger |
| Accounting.ClosingFillIsClamped | joker/ledger/projector.py:359-366 | an opposing fill reduces the position by at most what it held while the order counts all of it |
| PositionLaws.PositionFeesAddUp | joker/ledger/projector.py:400-420 | a position's fees are the sum over the accepted events that name it and either find or create it |
| PositionLaws.FreezingChangesNothing | joker/ledger/projector.py:481-499 | for every stream a position is open if and only if it holds something, so its frozen view is itself |
| PositionLaws.AverageStep | joker/ledger/projector.py:333-388 | a fill that adds to a position adds its own cost to the cost held, one that takes away leaves the average alone, and nothing held has none |
| PositionLaws.ProfitStep | joker/ledger/projector.py:359-398 | profit moves only when a landing fill takes from the position, long or short, and then by what is taken at the price against the average; a position of unknown cost realises nothing |
| PositionLaws.RestatedExactly | joker/ledger/projector.py:253-268 | a correction of a position, field by field |
| PositionLaws.NothingElseMovesIt | joker/ledger/projector.py:111-268 | nothing but landing fills and its own corrections moves a position, fees apart |
| PositionLaws.PositionIdLaw | joker/ledger/projector.py:333-350 | a position goes by the id of the last fill that opened it from nothing and carried one |
| PositionLaws.CapitalIsPremium | joker/ledger/projector.py:97-101 | the capital in a contract is 100 times its size times its average, for longs and shorts alike |
| PositionLaws.ProfitIsCashAndCapital | joker/ledger/projector.py:333-398 | without position corrections, profit is 100 times net cash plus the capital of a long, or minus that of a short |
| FillSafety.OrderDependsOnItsHistory | joker/ledger/projector.py:111-204 | an order after a whole stream depends only on its own accepted events |
| FillSafety.FillSafety | joker/ledger/projector.py:119-204 | for an order submitted first and once, without corrections or overfill permission: filled never exceeds submitted, average times filled is exactly what was paid, complete means FILLED |
| FillSafety.FillSafetyInStream | joker/ledger/projector.py:83-109 | the same for that order inside any stream |
| FillSafety.AverageIsBetweenFills | joker/ledger/projector.py:305-331 | the average fill price lies between any bounds on the fill prices |
| FillSafety.CompleteIsFinal | joker/ledger/projector.py:119-204 | once complete, no later event changes status, filled quantity or average |
| FillSafety.OverfillRuleExactly | joker/ledger/projector.py:305-331 | filled stays within submitted after an uncorrected event if and only if the event is not a resubmission, zero submission or permitted overfill that overruns |
| FillSafety.OverfillRuleOverHistories | joker/ledger/projector.py:119-331 | an uncorrected history keeps the order within its submitted quantity at every moment if and only if no event overruns when it arrives |
| FillSafety.ResubmissionOverfills | joker/ledger/projector.py:130-141 | every submission, fill and smaller resubmission of one order ends with filled above submitted |
| FillSafety.TenFiveThreeOverfills | joker/ledger/projector.py:130-141 | the stream ten submitted, five filled, three submitted again ends with five filled of three |
| OrderLaws.StatusLaw | joker/ledger/projector.py:119-268 | for every history, corrections included, and at every moment of it: the order reads a status if and only if some event gave it that status and none since has taken it away, where a landing fill gives FILLED or PARTIALLY_FILLED and takes every other, a cancellation counts unless it meets FILLED or REJECTED, a rejection unless FILLED or CANCELLED, an acceptance unless any of these or PARTIALLY_FILLED, a submission unless the order is closed |
| OrderLaws.StatusInStream | joker/ledger/projector.py:83-109 | the same for the order inside any stream, from its accepted events alone |
| OrderLaws.CancelledExactly | joker/ledger/projector.py:192-197 | for an uncorrected history: the order reads CANCELLED if and only if a cancellation met it neither filled nor rejected and no fill has landed since |
| OrderLaws.WordsAreRead | joker/ledger/projector.py:18-26 | a status is read from its own word and from no other |
| OrderLaws.FilledStep | joker/ledger/projector.py:305-331 | each event adds to the filled quantity exactly what lands of it, or restates it |
| OrderLaws.FillAverageStep | joker/ledger/projector.py:305-331 | what lands adds its own cost to the cost of what was filled, a restated fill may bring a price, and nothing else moves the average |
| OrderLaws.FilledIsTheSmaller | joker/ledger/projector.py:305-331 | an orderly order is filled by the sum of all its fills, up to what was submitted |
| OrderLaws.OrderExistsExactly | joker/ledger/projector.py:270-292 | there is an order if and only if some event of its history could open it |
| OrderLaws.FieldLaw | joker/ledger/projector.py:119-190 | submitted quantity, side and contract, and broker id are each as the last event that decides them gave them |
| OrderLaws.OrderFeesAddUp | joker/ledger/projector.py:400-420 | an order's fees are the sum over the events it is charged for, which leave out notices, ineffective fills and whatever came before it |
| Replay.ReplayIsIdempotent | joker/ledger/projector.py:89-94 | feeding any already seen events again, in any order, changes nothing |
| Replay.ProjectTwiceIsProjectOnce | joker/ledger/projector.py:89-94 | a stream followed by itself projects like the stream |
| Replay.DuplicateMeansClash | joker/ledger/projector.py:90-91 | an event is skipped exactly when it shares its id or its key with an event acted on before |
| Replay.AcceptedNeverClash | joker/ledger/projector.py:90-93 | events acted on share neither id nor key |
| Replay.OnlyAcceptedMatters | joker/ledger/projector.py:89-94 | dropping the skipped events leaves the same ledger |
| Replay.RetryIsInvisible | joker/ledger/projector.py:89-94 | a retry anywhere after the original leaves the projection unchanged |
| Replay.InterleavingUnion | joker/ledger/projector.py:83-228 | every interleaving of two unrelated streams gives the union of the two ledgers |
| Replay.InterleavingIndependence | joker/ledger/projector.py:83-109 | orders, positions and capital of an interleaving are the disjoint unions and the sum |
| Store.LedgerStore.AppendEvent | joker/ledger/store.py:64-114 | inserts, answers an equivalent retry, or refuses a conflict, and never touches an existing row |
| Store.LedgerStore.GetByIdempotencyKey | joker/ledger/store.py:116-126 | finds the key's one row |
| Store.RowsAreUniqueAndPermanent | joker/ledger/store.py:64-114 | over every history, one row per key and per id, and earlier rows stay as a prefix |
| Store.VerdictExactly | joker/ledger/store.py:64-150 | an append is a replay if and only if some row agrees with it in each of the fourteen business fields, and is inserted if and only if no row has its key or its id |
| Store.ReadsInStampOrder | joker/ledger/store.py:180-191 | reading back goes by exchange time, then creation, then id |
| Store.RetriesAreInvisible | joker/ledger/store.py:64-150 | a repeated key anywhere in a history leaves table and projection as they were without it |
| Store.DistinctAreAllKept | joker/ledger/store.py:64-114 | events with distinct keys and ids are all kept |
| Store.ReadsAreCanonical | joker/ledger/store.py:180-191 | reading back is a sorted permutation of the table, none of which the projection skips |
| Store.ArrivalOrderIsForgotten | joker/ledger/store.py:180-191 | two stores that accepted the same distinct events in different orders read and project identically |
| Reconciliation.Reconcile | joker/ledger/reconciliation.py:187-324 | the loops over orders, broker orders and positions return exactly the findings, and consistent means all of them are |
| Reconciliation.ReportOrders | joker/ledger/reconciliation.py:205-236 | findings for the active orders and the broker ids they used up |
| Reconciliation.CheckOrder | joker/ledger/reconciliation.py:327-371 | matching by client id before broker id, then quantity before status |
| StatusWords.WordFitsExactly | joker/ledger/reconciliation.py:165-177 | the inverse table: each broker word fits exactly the statuses listed for it, and any other word none |
| StatusWords.NoWordIsAmbiguous | joker/ledger/reconciliation.py:165-177 | no word fits both a working and a closed status, nor two closed ones |
| StatusWords.SpellingIsIrrelevant | joker/ledger/reconciliation.py:175-177 | blanks around a word and capitals in it make no difference |
| Reconciliation.ReportUnknown | joker/ledger/reconciliation.py:238-258 | one finding per broker order nobody knows |
| Reconciliation.ReportPositions | joker/ledger/reconciliation.py:260-299 | one finding per open projected position |
| Reconciliation.ReportUnexpected | joker/ledger/reconciliation.py:301-313 | one finding per non-zero broker position without an open projected one |
| Consistency.MatchIsTheAnswer | joker/ledger/reconciliation.py:205-225 | the match found through the two dictionaries is the broker order a reader would pick from the list |
| Consistency.OrdersAgreeExactly | joker/ledger/reconciliation.py:205-236 | no order finding if and only if every active order has a broker order with equal fill and compatible status |
| Consistency.NoStrangersExactly | joker/ledger/reconciliation.py:238-258 | no unknown-order finding if and only if every broker order is matched or known |
| Consistency.PositionPartConsistent | joker/ledger/reconciliation.py:260-313 | no position finding if and only if the non-zero holdings agree both ways |
| Consistency.ConsistentExactlyWhenAgreeing | joker/ledger/reconciliation.py:187-324 | soundness and completeness of `is_consistent` in one if-and-only-if |
| ReportLaws.OrderFindingsExactly | joker/ledger/reconciliation.py:205-236 | a finding is among the order findings if and only if it says, field by field, that a working order is missing at the broker and how much of it is open, or compares it with its answer under what differs |
| ReportLaws.UnknownFindingsExactly | joker/ledger/reconciliation.py:238-258 | a finding is among the unknown ones if and only if it names a broker order that goes by no id of the ledger and answers no working order, with what is open of it |
| ReportLaws.PositionFindingsExactly | joker/ledger/reconciliation.py:260-313 | a finding is among the position findings if and only if it says what both sides hold of a held contract, that the broker is silent about one, or that the broker holds one the ledger does not |
| Corrections.BuildCorrections | joker/ledger/reconciliation.py:80-134 | one correction event per inconsistent finding, in order, with the right kind, quantity and key |
| Corrections.CorrectionsExactly | joker/ledger/reconciliation.py:80-134 | one correction for each inconsistent finding in order, with the report's account, session, source and stamps, its key spelled out, no price or fee, and carrying what the finding says |
| Corrections.KeyNamesOutcomeAndEntity | joker/ledger/reconciliation.py:126-128 | within a report a correction key determines outcome and entity |
| Repair.ReportTargetsAreUnique | joker/ledger/reconciliation.py:187-324 | a report never repairs the same order or contract twice |
| Repair.RepairsAreApplied | joker/ledger/projector.py:90-94 | no repairing correction of a fresh report is skipped as a duplicate |
| RepairTheorem.PositionAfterRound | joker/ledger/projector.py:253-268 | after folding a report, a contract the broker lists holds the broker's quantity, any other is untouched |
| RepairTheorem.PositionsRepairedInOneRound | joker/ledger/reconciliation.py:80-134 | reconciling again finds no position mismatch but missing broker positions, and those are unchanged |
| RepairTheorem.FillsAfterRound | joker/ledger/reconciliation.py:96-123 | a mismatched order gets exactly the broker's fill if and only if that fill is positive; all else of the order but its status stays |
| RepairTheorem.RoundMovesNoMoney | joker/ledger/projector.py:230-268 | corrections change no realised profit and no fee |
| RepairTheorem.RoundTwiceIsOnce | joker/ledger/projector.py:89-94 | folding the same corrections twice is folding them once |
| RepairTheorem.ProjectedOrdersAreWellKeyed | joker/ledger/projector.py:270-292 | every projected ledger satisfies what a round asks of its orders |
| OrderRepair.RoundOnOrder | joker/ledger/reconciliation.py:80-134 | each order after a round, fill and status, in terms of itself and the broker's answer to it; orders without an answer are untouched |
| OrderRepair.SurvivalExactly | joker/ledger/reconciliation.py:327-371 | a fill mismatch outlives the round if and only if the broker's fill is not positive and the order keeps working, by the broker's word where that is taken over and else because the restated fill does not complete it; a status mismatch if and only if the word is not taken over and does not fit the order as it is then, partly filled where its fill was restated without completing it |
| OrderRepair.OrdersRepairedExactly | joker/ledger/reconciliation.py:80-371 | for distinct broker ids, none of which names an order of the ledger where a client id is missing: reconciling again finds no order mismatch if and only if every broker order was known and every working order had an answer under which neither mismatch survives |
| OrderRepair.RoundsSettleExactly | joker/ledger/reconciliation.py:80-134 | under an unchanging answer repeated rounds bring a working order to rest, after two at the latest, unless the broker's fill differs and is not positive, the restated fill does not complete the order and the broker's word is submitted or accepted; exactly then every round changes it and every second one undoes the one before |
| OrderRepair.RoundsOnOrder | joker/ledger/reconciliation.py:80-134 | each order of a ledger corrected again and again, in terms of what it was and the broker's answer to it |
| OrderRepair.LedgerSettlesExactly | joker/ledger/reconciliation.py:80-134 | from the second round on, a further round leaves all orders as they are if and only if none of the first ledger's oscillates |
| OrderRepair.SubmittedAndPartlyFilledInTurn | joker/ledger/reconciliation.py:96-123 | a partly filled order the broker calls submitted and filled nothing of is submitted after one round and what it was after two |
| OrderRepair.ZeroFillKeepsItsMismatch | joker/ledger/reconciliation.py:96 | every stream of a submission and a partial fill, compared with a broker that calls the order open, has filled nothing and holds nothing, keeps its fill mismatch through a round |
| OrderRepair.TenFiveKeepsItsMismatch | joker/ledger/reconciliation.py:96 | the stream ten submitted, five filled is one |
| BarBuilder.BarBuilder.IngestObservation | joker/market/bars.py:238-286 | one observation changes the builder's dictionaries and bars exactly as the state machine says |
| BarBuilder.BarBuilder.ResolveVolume | joker/market/bars.py:328-355 | the non-negative volume of an observation under the cumulative-delta policy, with its findings |
| BarBuilder.BarBuilder.ApplyTimeframe | joker/market/bars.py:357-390 | one timeframe's share of an observation: dropped, already counted, or fed to its bar |
| BarBuilder.BarBuilder.BarFor | joker/market/bars.py:392-466 | the interval's bar, opened and marked as needed, or none for a closed or long-past interval |
| BarBuilder.BarBuilder.CloseReadyBars | joker/market/bars.py:288-316 | emits exactly the ready bars, returns them sorted, and keeps what was emitted before |
| BarBuilder.OpenBar.ApplyPrice | joker/market/bars.py:158-175 | a price extends low and high, sets the close, and the first one sets the open |
| BarConservation.RunIsSound | joker/market/bars.py:288-390 | over any mix of ingests and closes, open and closed bars are what the accepted entries add up to |
| BarConservation.EmittedExactlyOnce | joker/market/bars.py:288-316 | each symbol, timeframe and start is emitted at most once and is never open again |
| BarConservation.ClosedBarsArePermanent | joker/market/bars.py:288-316 | a closed bar never changes |
| BarBuilder.ReadyInOrder | joker/market/bars.py:315-316 | what a close returns is in order of start, then timeframe, then symbol |
| BarConservation.BarsAreTheirEntries | joker/market/bars.py:357-390 | every bar is the summary of its entries and an id feeds at most one bar per timeframe |
| BarConservation.SummaryBounds | joker/market/bars.py:158-175 | low and high bound every price, and low, high, open and close are prices of the interval |
| BarLaws.BarsDescribeTheirPrices | joker/market/bars.py:158-175 | every bar of every run, open or closed: its open is the first price logged for its interval, its close the last, its extremes are attained and bound the rest, its ids are theirs in order, its volume is their sum |
| BarLaws.LogExactly | joker/market/bars.py:357-390 | an interval logs exactly what it lets in, once for each observation and timeframe |
| BarLaws.MarksExactly | joker/market/bars.py:288-466 | for every run: an interval has a bar once it has let an observation in and is emitted once a close reached it; its bar is late if and only if an observation was let in at or after the end, overtaken if and only if a later interval was opened meanwhile, and its flags say exactly that, with incomplete and empty for a closed one |
| BarLaws.FindingsExactly | joker/market/bars.py:328-430 | the findings of every run are each fall of a cumulative volume and each observation turned away, once per timeframe, in order and under the right code |
| BarLaws.IntervalExactly | joker/market/bars.py:128-134 | the start of an instant's interval is the one multiple of the width the instant is in |
| BarLaws.VolumesAreRisesAndSizes | joker/market/bars.py:328-355 | over every feed the volume resolved for a symbol is every rise of its cumulative volume plus the sizes of the trades without a valid one |
| BarLaws.QuotePriceExactly | joker/market/bars.py:468-481 | a valid pair is worth its middle, anything else the first positive of last, bid and ask |
| BarConservation.VolumeIsConserved | joker/market/bars.py:288-390 | per timeframe the bars hold exactly the volume resolved for accepted observations |
| BarConservation.SteadyVolumesTelescope | joker/market/bars.py:328-355 | for a non-decreasing quote feed resolved volumes sum to last minus first |
| BarDominance.IntervalsNest | joker/market/bars.py:128-139 | a minute lies inside its five minutes |
| BarDominance.OneImpliesFive | joker/market/bars.py:392-466 | in a causal feed whatever the minute accepts the five minutes accept, over every run |
| BarDominance.FiveWithoutOneIsLate | joker/market/bars.py:392-466 | the reverse fails only when the observation came too late for its minute |
| BarDominance.EntriesComeInPairs | joker/market/bars.py:357-390 | an ingest adds nothing, a five-minute entry alone, or one entry to each |
| BarDominance.FiveMinutesDominate | joker/market/bars.py:357-465 | the five-minute entries cover the minutes' entries in volume and prices; volumes are equal without minute drops |
| BarDominance.BarAtIsLogged | joker/market/bars.py:288-390 | the bar of an interval, open or closed, is the summary of its entries |
| BarDominance.FiveMinuteBarDominates | joker/market/bars.py:357-465 | the five-minute bar has at least the volume of its minutes and bounds each priced minute; equality without minute drops |
| EventBus.EveryScheduleKeepsInv | joker/events/bus.py:39-114 | the bus invariant holds after every schedule of publishes, worker steps and subscriptions |
| BusTheorems.DeliverySafety | joker/events/bus.py:39-114 | per correlation, published is dispatched, then in flight, then queued; dispatches keep publish order; no id is dispatched twice; every dispatch goes to the handlers the schedule had subscribed to the event's kind when it was taken, in order, then those for every kind, and called them all or was cut short right after the one that let an exception escape |
| BusTheorems.AtMostOnce | joker/events/bus.py:42-53 | two dispatches never share an event id |
| BusTheorems.DispatchesAreAddressed | joker/events/bus.py:35-37 | the same for what is being dispatched, from the schedule's subscriptions alone |
| BusTheorems.PublishedExactly | joker/events/bus.py:39-66 | over every schedule exactly the first event of each id is accepted |
| BusTheorems.CaughtFailuresAreIsolated | joker/events/bus.py:83-114 | what handlers raise or time out on cannot be told from completion by anything dispatched later, in any schedule, escapes included |
| BusTheorems.DeadExactly | joker/events/bus.py:68-81 | a worker has ended early exactly when a handler of its correlation let an exception escape |
| BusTheorems.DeadIsSilent | joker/events/bus.py:51-64 | after such an end nothing of the correlation is dispatched again, whatever is published, and its queue only grows |
| BusTheorems.IsolationExactly | joker/events/bus.py:68-114 | when no worker can move any more, all events of a correlation have reached all their handlers if and only if no handler of that correlation let an exception escape |
| BusTheorems.LookingIdleIsDispatched | joker/events/bus.py:116-129 | the condition `drain` polls implies that every accepted event has been dispatched, and dispatched to all its handlers if and only if no worker is dead |
| BusTheorems.WorkerStepDecreases | joker/events/bus.py:68-114 | each worker step does a unit of the remaining work, exactly one unless an exception escapes |
| BusTheorems.SomeStepIsEnabled | joker/events/bus.py:68-114 | until the bus looks idle some worker can move, unless an event is stranded behind a dead worker |
| BusTheorems.QuietLooksIdleExactly | joker/events/bus.py:68-129 | where no worker can move the bus looks idle if and only if no event is stranded |
| BusTheorems.DrainableExactly | joker/events/bus.py:116-129 | the condition `drain` polls can still come true, under some schedule of any length, if and only if no event is stranded behind a dead worker |
| BusTheorems.DrainOverlooksTheEscape | joker/events/bus.py:116-129 | a schedule after which the bus looks idle although an event was cut short |
| BusTheorems.NextEventIsStranded | joker/events/bus.py:51-64 | a schedule after which an accepted event is never dispatched and no drain succeeds |
| BusTheorems.WorkersReachQuiescence | joker/events/bus.py:68-129 | without publishes no schedule of workers is longer than the work there was, and without escapes it is exactly as long as the work it does |
| InProcessBus.InProcessAsyncEventBus.PublishEvent | joker/events/bus.py:39-66 | a seen id is refused; any other is remembered and queued behind its correlation, with a worker |
| InProcessBus.InProcessAsyncEventBus.TakeNext | joker/events/bus.py:68-81 | taking the head of the queue and counting it as dispatching is one step |
| InProcessBus.InProcessAsyncEventBus.NoteOutcome | joker/events/bus.py:68-114 | a caught failure moves on to the next handler; one that escapes counts the dispatch down and ends the worker, leaving its queue |
| InProcessBus.InProcessAsyncEventBus.EndDispatch | joker/events/bus.py:76-81 | the count goes down after the last handler and the worker waits for its next event |
| InProcessBus.InProcessAsyncEventBus.Drain | joker/events/bus.py:116-129 | whatever runs in between, a successful drain leaves every accepted event dispatched to the handlers that were subscribed to it when its turn came, and handed to all of them if and only if no worker is dead |
| InProcessBus.InProcessAsyncEventBus.Close | joker/events/bus.py:131-141 | with no new publishes, after a successful drain close completes if and only if no worker is dead, and then everything is delivered and every worker has ended |
| SurfaceFetch.FetchSurface | joker/data/webull_options_provider.py:274-408 | whatever batches return or raise: the snapshots are, in order, the right answers of the batches that returned, each id the first time; every note has its reason and every reason its note; complete if and only if no note, if and only if no quality finding, and if and only if the service was faultless; complete implies every eligible discovered id was fetched; no result only when discovery fails |
| SurfaceFetch.FetchBatches | joker/data/webull_options_provider.py:337-391 | what is kept is, in order, every answer of a returned batch with the right symbol, expiry and an id not answered before; a batch that raised is noted with its start, kind and message and loses nothing kept before; nothing is noted exactly when every batch is answered with all it asked for and no answer clashes |
| SurfaceFetch.Screen | joker/data/webull_options_provider.py:345-375 | what is kept of a reply is what counts of it after all that was said before, and each note is the complaint about one of its answers |
| SurfaceFetch.SelectionHolds | joker/data/webull_options_provider.py:303-318 | ordering by distance drops no eligible contract unless the emergency limit cuts |
| SurfaceFetch.EligibleExactly | joker/data/webull_options_provider.py:303-309 | a contract is eligible if and only if it names no underlying or SPY in any letters, expires on the day and has an id |
| SurfaceFetch.NearestFirst | joker/data/webull_options_provider.py:303-318 | the nearest strikes come first, and the emergency cut leaves out none nearer than it keeps |
| SurfaceFetch.QualityExactly | joker/data/webull_options_provider.py:61-112 | an incomplete surface is unavailable if and only if nothing was selected or fetched or some note's text says so, else partial |
| SurfaceFetch.CompleteCoversEveryEligible | joker/data/webull_options_provider.py:303-408 | a faultless service has answered for every eligible discovered contract |
| SurfaceFetch.CompleteFetchesExactlyTheSelection | joker/data/webull_options_provider.py:319-408 | with distinct contract ids, a faultless service has answered for exactly the selected ids |
| SurfaceFetch.FaithfulServiceIsFaultless | joker/data/webull_options_provider.py:337-408 | a service that answers every batch in full is found faultless, so completeness is attainable |
| Reducers.MergeModels | joker/graph/reducers.py:26-46 | the dictionary loop and the sort give the canonical left-biased merge |
| Reducers.FindConflictingIds | joker/graph/reducers.py:121-135 | the ids whose incoming payload differs from the existing one |
| Reducers.MergeIsLeftBiased | joker/graph/reducers.py:34-46 | an item is in the merge exactly when it is the first under its id, existing before incoming; the result is sorted and duplicate-free |
| Reducers.MergeIsAssociative | joker/graph/reducers.py:26-46 | grouping of merges is irrelevant |
| Reducers.MergeIsIdempotent | joker/graph/reducers.py:26-46 | merging in what is already there changes nothing |
| Reducers.ConflictsAre | joker/graph/reducers.py:121-135 | nothing is reported if and only if every incoming item equals the last existing one under its id, if there is one |
| Reducers.CommutesExactly | joker/graph/reducers.py:26-46 | any two lists merge the same both ways if and only if they agree on the first item of every shared id |
| Reducers.CommutesExactlyWithoutConflict | joker/graph/reducers.py:26-135 | two lists without duplicate ids merge the same both ways if and only if no conflicting id is reported |
| Reducers.AnyOrderConverges | joker/graph/reducers.py:26-46 | parallel updates without conflict give one result in every order |
| Reducers.FoldIsCanonical | joker/graph/reducers.py:26-46 | folding any updates is one canonical merge of everything |
| ExitManager.TrailingIsClosedForm | joker/execution/exit_manager.py:70-98 | stepping along any premium path equals the closed form in the path's peak |
| ExitManager.ClosedFormExactly | joker/execution/exit_manager.py:70-98 | the closed form is right for all trades and paths if and only if the giveback is at most one |
| ExitManager.RatchetOutlivesClosedForm | joker/execution/exit_manager.py:80-84 | concrete paths on which a larger giveback makes the two differ |
| ExitManager.ActiveTrailLocksGain | joker/execution/exit_manager.py:70-112 | an active trail keeps the effective stop at or above the activation gain less the giveback |
| ExitManager.EffectiveStopNeverFalls | joker/execution/exit_manager.py:100-112 | along later premiums and later times of one day up to the close the effective stop never falls |
| ExitManager.EndOfDayAlwaysExits | joker/execution/exit_manager.py:114-171 | from the end-of-day time on, every check exits |
| ExitManager.ReasonExactly | joker/execution/exit_manager.py:114-171 | each exit reason, and holding on, if and only if its condition, with the time stop in seconds held |
| ExitManager.StopIsTheHighestInForce | joker/execution/exit_manager.py:100-112 | the effective stop is the highest of the initial stop, an active trail and the late-day floor in its minutes |
| ExitManager.StopNeverFallsBeforeEnd | joker/execution/exit_manager.py:100-112 | with an end-of-day time of at most 16:01, or a negative tightening window, the stop never falls before that time |
| ExitManager.HeldIsAboveEveryEarlierStop | joker/execution/exit_manager.py:114-171 | with an end-of-day time of at most 16:01, or a negative tightening window: a position held at a check is above every stop in force earlier that day, below its target and before the end-of-day time |
| ExitManager.LateDayExactly | joker/execution/exit_manager.py:100-171 | before the end of day the stop never falls, and a held position is above every earlier stop, for all trades, premiums and times if and only if the manager is set up so |
| ExitManager.StopFallsAfterFour | joker/execution/exit_manager.py:107-111 | otherwise, for a trade without a trail or time stop, every premium between the initial stop and the floor and below the target is held at 16:01 under the stop of 16:00 |
| ExitManager.DefaultsAndALaterEnd | joker/execution/exit_manager.py:29-49 | the default settings are so; with a later end of day a premium of 60 is stopped out at 16:00 under a stop of 65 and held at 16:01 under one of 50 |
| RateLimiter.SlidingWindow.Acquire | joker/data/options_rate_limit.py:20-29 | grants exactly when fewer than the limit of all past grants are recent, though old timestamps are discarded |
| RateLimiter.GrantKeepsBound | joker/data/options_rate_limit.py:20-29 | such a grant leaves every window of the width within the limit |
| RateLimiter.EveryWindowIsBounded | joker/data/options_rate_limit.py:20-29 | over every history of requests no window of the width holds more grants than the limit |
| CognitiveGraph.EveryRunEnds | joker/graph/cognitive_graph.py:448-516 | for all agent answers, raising included, a run is over after a number of node visits fixed by the settings |
| CognitiveGraph.RunAccounts | joker/graph/cognitive_graph.py:215-252 | at every moment debates held are exactly one plus the revisions the debate limit let through |
| CognitiveGraph.LoopIsBounded | joker/graph/cognitive_graph.py:215-252 | revisions are at most the switch limit and debates at most one plus the smaller limit, negative limits counting as zero |
| CognitiveGraph.BoundsAreReached | joker/graph/cognitive_graph.py:215-252 | agents that always ask to switch reach both bounds |
| CognitiveGraph.SubmissionGate | joker/graph/cognitive_graph.py:286-423 | at most one command is handed over in a run, and only under an EXECUTE or PROBE decision and after a validation that neither failed nor went stale |
| CognitiveGraph.GateOpens | joker/graph/cognitive_graph.py:254-423 | agents that decide to enter, by executing or by probing, with validation passing, make exactly one submission |
| CognitiveGraph.HandsOverExactly | joker/graph/cognitive_graph.py:330-423 | a command is handed over if and only if the submit node runs with a proposal, the second validation passes and there is somewhere to send it |
| CognitiveGraph.CommandIdExactly | joker/graph/cognitive_graph.py:330-423 | a run carries a command id if and only if a command handed over was accepted |
| CognitiveGraph.ValidationRoutesExactly | joker/graph/cognitive_graph.py:286-328 | validation leads to submission if and only if nothing was proposed or the proposal passes, and otherwise to the stale or the completed end |
| CognitiveGraph.DecisionRoutesExactly | joker/graph/cognitive_graph.py:190-233 | where each decision leads, a missing one included, within the limits |
| CognitiveGraph.OpeningInOrder | joker/graph/cognitive_graph.py:448-516 | unless a node raises, the opening nodes run once each in their order |
| CognitiveGraph.AbortsExactly | joker/graph/cognitive_graph.py:448-516 | a run is aborted if and only if a node raised or the gateway exploded on a command handed over |
| CognitiveGraph.OutcomeIsWhatHappened | joker/graph/cognitive_graph.py:425-546 | with an event bus attached a run that ends is announced exactly once, last, and under the outcome its last decision and verdict call for; without one nothing is announced |
| Router.ModelRouter.CompleteWithRetries | joker/models/router.py:184-304 | the method over the router's counters, logs and store computes the recursive meaning of a call |
| Router.ModelRouter.EscalateOrRaise | joker/models/router.py:306-355 | raises on the remote profile or at the escalation limit, otherwise escalates |
| Router.ModelRouter.RouteAndComplete | joker/models/router.py:149-182 | selects, logs and completes |
| Router.ProfilePrecedence | joker/models/router.py:110-125 | a forced profile wins over escalation, that over the request's own configured profile, and that over the role |
| Router.RoleProfileExactly | joker/models/router.py:31-147 | left to its role a request runs on the profile the role is meant for, with general reasoning for a disabled deep local profile and an error for a missing one |
| Router.CriticIndependenceExactly | joker/models/router.py:127-133 | independence is reported as degraded if and only if a critic is left to criticise on the inventor's own profile |
| Router.RoleReasonExactly | joker/models/router.py:127-147 | the reason noted with a choice left to the role |
| Router.GeneralReasonExactly | joker/models/router.py:144-147 | inventors, pattern agents and analysts are known to reason in general, all others by default |
| Router.ModelRouter.TryReuseCompleted | joker/models/router.py:406-437 | a stored result only from a completed row with readable output, and none when the store fails |
| Router.ModelRouter.RecordCallStarted | joker/models/router.py:439-478 | appends an in-progress row under the request's key for known roles; store failures are swallowed |
| Router.ModelRouter.RecordCallCompleted | joker/models/router.py:480-499 | marks the row the provider's answer names; refusals are swallowed |
| Router.ModelRouter.RecordCallFailed | joker/models/router.py:501-510 | marks the request's row failed; refusals are swallowed |
| Router.AttemptedAsExpected | joker/models/router.py:184-355 | the mutual recursion is a two-phase reference without recursion between the phases: outcome, number of calls and routing log, for every world and store fault |
| Router.RequestIsBounded | joker/models/router.py:184-355 | a request costs at most repairs plus one provider calls, doubled only if escalation is allowed, whatever the store does |
| Router.CallsAreBounded | joker/models/router.py:306-316 | the reference obeys the bound, and a request on the remote profile never escalates |
| Router.FirstSettledAnswerDecides | joker/models/router.py:232-304 | every answer before the last was a retried failure, and the last one is what the caller gets |
| Router.CrashIsFinal | joker/models/router.py:232-279 | an unhandled exception is raised at once and never retried |
| Router.AttemptsAreCallsExactly | joker/models/router.py:196 | the reported attempt count is the number of calls in every world if and only if the request cannot escalate or schema failures are not repaired |
| Router.AttemptCountExactly | joker/models/router.py:196 | for one request: if and only if it did not escalate after a repair |
| Router.ThreeCallsTwoAttempts | joker/models/router.py:196 | a world in which three calls are reported as two attempts |
| Router.AttemptedIsLater | joker/models/router.py:184-355 | no request takes a completed or failed record back |
| Router.AttemptedIsRecorded | joker/models/router.py:439-510 | for a key that is free or the request's own: success without escalation is completed on record with its output and the attempt count the row began with, a failure is on record under its name, a crash leaves the call in progress, and escalation leaves it failed |
| Router.ReusedResultExactly | joker/models/router.py:406-437 | a fresh request's stored result is the one its caller got, with one attempt, so it is the same if and only if a single call was made |
| Router.RepairsAreForgotten | joker/models/router.py:406-437 | a world in which two calls are stored as one attempt |
| Router.ReusableAfterwardsExactly | joker/models/router.py:406-510 | with nothing to reuse beforehand, a success leaves a reusable record if and only if its key was free or its own and it did not escalate |
| Router.BlockedStays | joker/models/router.py:439-510 | under a key that is another request's, or whose record is closed without a readable output, no request changes that |
| Router.RetryUnderOpenKeyIsLost | joker/models/router.py:439-510 | a retry under the open key of a crashed call succeeds and leaves no record |
| Router.StoredResultCostsNothing | joker/models/router.py:218-221 | a stored result is returned without a provider call |
| Router.ReuseIsForever | joker/models/router.py:406-437 | once reusable, a result stays reusable and the same whatever is done to the records |
| Router.SecondRequestIsFreeExactly | joker/models/router.py:184-437 | after a success, any later request under the same key, with an id and profile of its own, costs no provider call if and only if the first did not escalate, and then has its output |
| Router.RepetitionsAreFreeExactly | joker/models/router.py:306-355 | every repetition is free if and only if the first request cannot escalate under the settings |
| Router.EscalationIsPaidAgain | joker/models/router.py:306-355 | a world in which the second request pays again |
| CallRecords.ModelCallTable.AppendModelCall | joker/cognition/artifacts.py:352-405 | a known key answers with the earlier id and writes nothing; a reused request id is refused |
| CallRecords.ModelCallTable.MarkComplete | joker/cognition/artifacts.py:478-517 | completing twice is harmless, completing a failed or missing call is refused |
| CallRecords.ModelCallTable.MarkFailed | joker/cognition/artifacts.py:519-545 | failing a completed or missing call is refused |
| CallRecords.MarksExactly | joker/cognition/artifacts.py:478-545 | completing an open call takes over names and output only where there are any, failing it changes only status and error, and neither touches another row |
| CallRecords.ModelCallTable.GetByKey | joker/cognition/artifacts.py:448-462 | finds the key's row exactly when there is one |
| CallRecords.RecordsNeverGoBack | joker/cognition/artifacts.py:352-545 | over every history of operations a completed row never changes, a failed one never completes, no row is lost and every key keeps its row |
| CallRecords.OneKeyOneCall | joker/cognition/artifacts.py:352-361 | the first call under a key owns it for good |
| OptionSymbols.ParseAfterBuild | joker/data/webull_option_symbols.py:10-35 | for every date, side and strike, negative and longer than eight digits included, the printed symbol parses to the century's date, the side and the rounded strike |
| OptionSymbols.RoundTripExactly | joker/data/webull_option_symbols.py:10-35 | parsing what was printed gives the contract back if and only if it expires in 2000-2099 and its strike is whole thousandths |
| OptionSymbols.SymbolsIdentifyContracts | joker/data/webull_option_symbols.py:10-35 | two contracts share a symbol if and only if they agree in month, day, year of the century, side and rounded strike |
| OptionSymbols.FormattedParsesBack | joker/data/webull_option_symbols.py:20-21 | every integer printed with zero padding is read back |
| OptionSymbols.CenturyIsValid | joker/data/webull_option_symbols.py:32 | cutting the year to two digits never produces a day that does not exist |
| OptionSymbols.DateExactly | joker/data/webull_option_symbols.py:32 | which days exist |
| OptionSymbols.RoundExactly | joker/data/webull_option_symbols.py:20 | a strike is rounded to the one integer within a half, or of two to the even one |
| OptionSymbols.RefusalsExactly | joker/data/webull_option_symbols.py:24-35 | which symbols are refused and why: no word at all, another shape, an unreadable number, no such day |
| OptionSymbols.BuildAtmCandidates | joker/data/webull_option_symbols.py:55-71 | six candidates, three whole strikes with a call and a put each, every symbol distinct and parsing back to its contract |

## Left out

- Refusing blank account, order, contract, key or session texts when an event is built: the theorems hold for such events too, and no witness uses one.
- Decimal context rounding and binary floating point: reals are exact.
- Time zones and daylight saving: times are exchange-local integers.
- SQLite and aiosqlite: the store and the call records are keyed tables with atomic operations; the filtered reads by session, order, contract and position only map rows.
- Finding texts, and the metadata keys of a correction that nothing reads back.
- The fallback branches of `_correction_kind` for entity types that reconciliation never produces.
- Bar findings' texts, `clear_findings`, the `open_bars` snapshot, and the `emit_key in _emitted` branch of `close_ready_bars`, which the invariant shows is never taken.
- `clear_seen`, and publishing concurrently with `close`.
- Cancelling a bus worker between two events, and what the other workers do while an interrupted `close` is raising.
- The snapshot and contract caches of the options provider, capability flags and quote events; discovery is an oracle.
- Whitespace and letter case beyond ASCII in symbols, statuses and integers.
- LangGraph's own step limit, checkpoints and trace records, and node outputs that no route reads.
- What a gateway does with a command after it has been handed over.
- The router's semaphore, time-outs, logs, prompt payloads, token counts and time stamps, and the provider and model names behind a profile.
- Infinite or undefined strikes and the parsing of symbols into instrument metadata beyond the contract.
- HTTP, authentication, the command line, the terminal interface, configuration loading, reports and logs: plumbing without an invariant of its own.
- Option-feed classification, freshness thresholds, session memory and the paper broker: single-branch facts that would add only easy members.
