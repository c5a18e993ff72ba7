# Delta-neutral trading engine: a verified model

The system holds paired positions: a long leg on one exchange and a short leg on another. It opens both, repairs a
mismatch, watches them and closes them together, while acknowledgements are lost, fills are partial and database
writes fail. Around that protocol stand two-phase rebalancing between the exchanges, a transactional outbox, and a
set of algorithms on order books, capital, numbers, rate limits, order ids and clocks. This project models that
behaviour and proves what it keeps over every run.

`dafny verify dfyconfig.toml` checks the whole project. Every module stands in one file of the same name.

| file | content |
|---|---|
| Decimals | exact decimals as `real`, Option and Result |
| Exchange | one leg on one exchange as an arbitrary script, and `OrderExecutor.Place` |
| Close | the bounded requote loop of `CoordinatedClose`, and its account of both legs |
| Repair | mismatch analysis, one top-up, one reduce-only order |
| Portfolio | the persistent position state machine, for one caller and for any interleaving of callers |
| Lifecycle | one position from entry to close, as functions on values, and the invariant of its whole life |
| Outcomes | where every path of an opening, a close and a monitor pass ends, and what it records |
| Engine | the imperative engine: registry, close requests, monitor, opening, tick and main loop |
| Outbox | dispatchers, row locks and crashes as interleaved steps, and the imperative `RunOnce` |
| Breaker | the withdrawal circuit breaker against its event history |
| Rebalance | plan state machine and the TEST and MAIN phases |
| Planner | the 50/50 planner |
| OrderBook | the greedy walk, VWAP and the depth check |
| Allocation | greedy allocation of capital under four kinds of limit |
| FixedPoint | `Fixed64`: wrapped 64-bit arithmetic, conversions and printing |
| TokenBucket | rate limit and retry rule of the HTTP client |
| ClientOrderId | printing and parsing client order ids |
| Sntp | NTP timestamps and the offset formula (sections 3 and 5 of RFC 4330) |

## How the model is built

Code that changes state step by step is a class or a method with loops. Its contract ties the new state to a function
on values (`CloseSpec`, `OpenSpec`, `TestSpec`, ...), and the lemmas are about those functions. Whatever the code cannot
control is a parameter: an exchange leg is a function from order numbers to behaviours, a store is a function from
states to answers, a polling loop is a list of rounds. The lemmas hold for all values of these parameters, so they
hold for every behaviour.

What is assumed of the world:

- Fills are not negative, and a reduce-only order never executes more than the open quantity.
- An order refused with a definite error, or unknown to the exchange, executed nothing. Any other order may execute
  any part of what it asks for.
- After an acknowledgement whose `GetOrder` fails the booked fill is 0, so a booked fill can be too low and never too
  high. A recorded quantity can then be too low after an entry and too high after a close.
- Where a result needs the fills reported by the exchange to be true, it says `Truthful`; the other results also hold for
  replies that lag behind the execution or misstate it.
- Repair reads a reduce-only order without an error as fully executed. Where a result depends on that, it says `Clean`.
- The two goroutines of a close attempt, and of an entry, use different exchanges; they run one after the other here.
- A position's leg on an exchange is an account of its own. Two positions do not share one.
- `OnTransition` is atomic: it stores the record or fails.
- The row locks of the outbox follow PostgreSQL: a lock is held until commit or rollback, a crash rolls back, and a
  crash of a dispatcher ends its handler.
- Decimals are exact. Division is exact too, except in Allocation, where it is any function within a stated distance of
  the quotient; rounding to 28 digits is within half a unit of the last one (`NearestDivides`). `QuantizeRoundedIff` says
  when that rounding changes a quantized amount.

## Where the code differs from its own documentation

- `engine.go`: after an entry with one ambiguous leg the fill of the other leg is dropped as well. The position is
  DEGRADED with 0/0 on its books, and a close of it ends CLOSED without an order while both legs are open
  (`AmbiguousEntryIsForgotten`).
- `engine.go`: books and exchange can also differ after an unambiguous entry. When an executed entry order is
  acknowledged and its query fails, or its acknowledgement is lost and its query fails with a definite error, it is
  booked as 0, the top-up buys the quantity again, and the position is watched as hedged while one leg is twice as large
  (`UnreadEntryIsBoughtTwice`). `BooksMatchExchange` gives the exact difference over every life, and so when there is
  none.
- `engine.go`: when the store refuses HEDGED or MONITORING after the fills, or PARTIALLY_HEDGED in front of a repair, the
  engine forgets a position with open legs (`RefusedHedgeIsForgotten`, `RefusedMendIsForgotten`). `OpenRegistersIff` is
  the exact condition for an opening to be registered.
- `outbox.go`: `RunOnce` is said to return the number of processed events. It counts committed tries, those with a failed
  handler included, and skips, and leaves out commits whose acknowledgement is lost (`WhatIsCounted`,
  `NothingProcessedTwoCounted`, `OneProcessedNoneCounted`). The limit of attempts is kept exactly with one dispatcher, and
  exceeded by up to n - 1 with n (`LimitIsKeptIff`, `BoundIsReached`); the retry time is kept exactly with one dispatcher
  or without a backoff (`RetryTimeIsKeptIff`, `StaleBatchCallsEarly`).
- `executor.go`: operations are said to be idempotent by request id. A call of `ExecuteTest` can be repeated, and then sends
  the test amount again, exactly when the store lost the SENT status or the CONFIRMED status of an arrival that was seen
  (`SecondTestIsPossibleIff`, `TestTransferCanRepeat`). Its documented precondition is not checked in the code and not
  required here; without it even a dry run can send TEST (`DryRunCanSendTest`), and with it none does.
- `decimal.go`: quantizing is meant never to exceed the amount. With the quotient rounded to 28 digits it does exactly when
  the quotient is rounded up to an integer (`QuantizeRoundedIff`, `QuantizeCanExceed`).
- `allocator.go`: the quotient is meant to be rounded down and is rounded to the nearest (`GrantOvershootsIff`,
  `BudgetCanBeOverspent`).
- `decimal.go`: `SubWith` negates its argument in 64 bits and is wrong for every minuend when the subtrahend is the least
  number (`SubIsExactIff`). A comment says that the least number divided by -1 panics in Go; it wraps. The check is
  needed all the same.
- `client_order_id.go`: the length limit is not kept when purpose, leg, slice and nonce alone are too long
  (`FormatIsValidIff`).
- `vwap.go`: `CheckDepthSufficient` adds negative quantities, which the walk skips (`NegativeLevelHidesDepth`). The two agree
  for every quantity exactly when no negative level stands before a positive one (`DepthCheckIsExactIff`).
- `planner.go`: with two negative equities the error names whichever exchange the map yields first
  (`OrderOnlyNamesTheError`).

## Model

| member | source | states |
|---|---|---|
| `Exchange.OrderExecutor.Place` | fandos1/internal/execution/order_executor.go:54-141 | One order reaches the exchange, at most one query follows, and the result is what acknowledgement and answer determine; there is no blind retry. |
| `Exchange.PlaceIsSound` | fandos1/internal/execution/order_executor.go:54-157 | A reported fill, capped at the request, never exceeds what executed; it equals it when the exchange answered; a safe-to-retry error means nothing executed. |
| `Exchange.PlaceReports` | fandos1/internal/execution/order_executor.go:54-157 | In terms of the replies: an error exactly when the order was refused or its fate is unknown, ambiguous exactly in the second case, safe to retry exactly when the exchange does not know the order; otherwise the fill and status that the query found, or the acknowledged status without a fill. |
| `Close.PlaceCloseLeg` | fandos1/internal/execution/close.go:218-237 | A leg's attempt books at most the outstanding quantity, and tells ambiguous from definite errors. |
| `Close.CoordinatedClose` | fandos1/internal/execution/close.go:103-215 | Result, error and both legs are those of the requote loop on values, for every book and every exchange. |
| `Close.CloseConserves` | fandos1/internal/execution/close.go:107-246 | At every exit closed + residual = T on each leg, all four in [0, T]; no error exactly when both residuals are 0; every order is reduce-only for exactly what was outstanding; at most MaxRequotes + 1 orders per leg. |
| `Close.CloseSimulatesExchange` | fandos1/internal/execution/close.go:103-237 | On each leg, for all behaviours: what executed is within the starting position and exceeds the booked quantity by exactly what was not booked; unless a reply overstates a fill, booked <= executed, with equality exactly when every order was booked in full; with true reports the difference is what executed on orders whose answer went missing. |
| `Close.CloseEnds` | fandos1/internal/execution/close.go:107-246 | Read off the orders that were sent: ambiguous exactly when the last order of a leg is; incomplete exactly when something is left, nothing is unknown, and the requotes are used up, a leg with a residual has no quote, or both legs' last orders were refused; no earlier attempt gave a reason to stop; the reason names the one there is. |
| `Close.RefusedLegIsRequoted` | fandos1/internal/execution/close.go:115-209 | A leg that is refused up to MaxRequotes times and then cooperates is closed in full, when the other leg cooperates at once. |
| `Close.CloseOrdersArePriced` | fandos1/internal/execution/close.go:113-135 | The i-th order of the long leg sells at the i-th bid less the protection, that of the short leg buys at the i-th ask plus it. |
| `Close.CloseOrdersCross` | fandos1/internal/execution/close.go:113-135 | In numbers: each limit is the quote of its attempt moved by the configured ticks times the tick size, down for the long leg and up for the short one, so with a non-negative number no order is limited short of the quote. |
| `Close.CooperativeCloseSucceeds` | fandos1/internal/execution/close.go:103-215 | With quotes and two exchanges that execute and answer, one order on each leg closes the whole target without an error. |
| `Repair.PlaceReduceOrder` | fandos1/internal/execution/repair.go:170-189 | One reduce-only market order for a positive excess, none otherwise; its fill is dropped. |
| `Repair.ExcessIsDelta` | fandos1/internal/execution/repair.go:107-139 | After a top-up within the shortfall the excess is exactly the delta that is left. |
| `Repair.MismatchIs` | fandos1/internal/execution/repair.go:54-91 | A repair is due exactly when the fills differ by more than the tolerance; it is due for the difference. |
| `Repair.RepairImbalance` | fandos1/internal/engine/engine.go:628-696 | Both fills and both legs are those of one top-up followed by at most one reduce-only order. |
| `Repair.RepairIs` | fandos1/internal/engine/engine.go:628-696 | All of a repair on the logs: the smaller leg gets one limit order on its own side for exactly what it lacks, at its own entry price; the larger one gets one reduce-only market order against its side for exactly the delta left, unless a top-up that executed left no more than the tolerance; its fill is set to the common one exactly when that order had no error. |
| `Repair.RepairNeverWorsens` | fandos1/internal/execution/repair.go:54-139 | The excess is \|newLong - newShort\|; both legs end between the original minimum and maximum; \|delta\| never grows; at most two orders; the delta ends at 0, within tolerance, or where the top-up left it. |
| `Repair.RepairOnExchange` | fandos1/internal/engine/engine.go:628-696 | On the exchanges, too, starting from fills that were booked right: both open quantities stay between the original minimum and maximum and their difference does not grow, whatever is executed, lost or misreported. |
| `Portfolio.Position.SetQuantities` | fandos1/internal/portfolio/state_machine.go:260-270 | Sets both quantities unless the position is terminal. |
| `Portfolio.Position.TransitionTo` | fandos1/internal/portfolio/state_machine.go:211-256 | Refusals change nothing; a stored transition is appended; a refused store restores state and history and keeps the quantities set meanwhile. |
| `Portfolio.TransitionIs` | fandos1/internal/portfolio/state_machine.go:211-256 | Each error exactly when it is due; a refused call or record leaves state and history as they were; a stored one appends exactly its record; the quantities are the last ones set meanwhile, unless the new state is final. |
| `Portfolio.NextKeepsInvariant` | fandos1/internal/portfolio/state_machine.go:211-270 | Every step of every caller keeps path, log and the one in-flight record in agreement. |
| `Portfolio.HistoryAgreesWithLog` | fandos1/internal/portfolio/state_machine.go:211-256 | Over every interleaving: at most one persist in flight, the history is a connected path of allowed edges ending at the state, and it is the stored log whenever nothing is being persisted. |
| `Portfolio.TerminalIsForever` | fandos1/internal/portfolio/state_machine.go:46-48 | A committed CLOSED or FAILED is never left and nothing about the position changes any more. |
| `Portfolio.OthersOnlyMoveQuantities` | fandos1/internal/portfolio/state_machine.go:219-222 | While one caller is between its critical sections, all others together can only move the quantities. |
| `Portfolio.RollbackIsExact` | fandos1/internal/portfolio/state_machine.go:235-249 | A refused transition removes exactly its own record and keeps concurrent quantity updates, whatever the others do. |
| `Portfolio.TransitionIsARun` | fandos1/internal/portfolio/state_machine.go:211-256 | The single call of `TransitionTo` is one of the interleavings. |
| `Portfolio.OpeningComesFirst` | fandos1/internal/portfolio/state_machine.go:61-104 | Every state beyond PREPARING, other than FAILED, was reached through OPENING. |
| `Portfolio.LastEdge` | fandos1/internal/portfolio/state_machine.go:61-104 | CLOSED comes only from RECONCILING or DEGRADED, MONITORING only from HEDGED, EXITING only from EXIT_REQUESTED. |
| `Portfolio.EnteredFromIff` | fandos1/internal/portfolio/state_machine.go:61-104 | The table read backwards: from which states each state can be entered. |
| `Lifecycle.TransitFacts` | fandos1/internal/engine/engine.go:472-478 | A transition succeeds exactly when it is allowed and stored, and otherwise changes nothing. |
| `Lifecycle.EnterLegFacts` | fandos1/internal/engine/engine.go:581-624 | An entry leg books between 0 and the quantity, exactly what its one order accounts for, and is ambiguous exactly when that order is. |
| `Lifecycle.RepairKeepsLedger` | fandos1/internal/engine/engine.go:628-696 | Whatever the exchanges do, repair books on each leg exactly the effects of the orders it sent. |
| `Lifecycle.MendKeepsInvariant` | fandos1/internal/engine/engine.go:537-555 | The mismatched branch of an opening ends with the position's invariant. |
| `Lifecycle.OpenKeepsInvariant` | fandos1/internal/engine/engine.go:438-570 | Every opening, whatever fails in it, ends with the position's invariant. |
| `Lifecycle.CloseKeepsInvariant` | fandos1/internal/engine/engine.go:306-381 | Every close, whatever fails in it, keeps the position's invariant. |
| `Lifecycle.MonitorKeepsInvariant` | fandos1/internal/engine/engine.go:252-291 | One pass of the monitor keeps it, with or without a close request or a flipped funding spread. |
| `Lifecycle.WholeRunDelta` | fandos1/internal/engine/engine.go:239-570 | Over every life: quantities stay non-negative, and HEDGED and MONITORING mean \|long - short\| <= tolerance and not 0/0. |
| `Lifecycle.ClosedMeansOneLegZero` | fandos1/internal/engine/engine.go:306-381 | A close ends CLOSED exactly when symbols are known, the four transitions are stored and the coordinated close has no error; then one leg is exactly 0, the delta is unchanged, the other leg is within tolerance if it came from MONITORING, and the books are flat exactly when the legs were equal. |
| `Lifecycle.GapIsExact` | fandos1/internal/execution/order_executor.go:72-140 | Open minus booked quantity is the sum over a leg's orders of what executed and was not booked, with its sign, plus ordered minus executed (or minus executed after an error) on market orders; with true reports only lost answers and market orders contribute. |
| `Lifecycle.BooksMatchExchange` | fandos1/internal/engine/engine.go:306-570 | Over every life: after an unambiguous entry each open quantity differs from the recorded one by exactly that sum, and equals it exactly when the sum is 0, as it is when reports are true, every answer came and every market order executed in full; after an ambiguous entry both records are 0 and agree exactly where nothing is open. |
| `Lifecycle.ExchangesAreHedged` | fandos1/internal/engine/engine.go:239-570 | Over every life, the hedge on the exchanges: while a position with a known entry is HEDGED or MONITORING, the open quantities less those sums differ by at most the tolerance and are not both 0; the delta on the exchanges exceeds the tolerance by at most the difference of the sums, and not at all where all reports are true and all answers came. |
| `Lifecycle.ClosedOnExchanges` | fandos1/internal/engine/engine.go:306-381 | After a close that ends CLOSED, less those sums, one leg has nothing open and the other exactly what the legs differed by before, within tolerance if it came from MONITORING. |
| `Lifecycle.ClosedLivesAreOneSided` | fandos1/internal/engine/engine.go:239-570 | Over every life: a CLOSED position has one empty leg, on its books and, less those sums, on its exchange. |
| `Lifecycle.LifeIsSound` | fandos1/internal/engine/engine.go:239-570 | Whatever record some opening and some events lead to satisfies the invariant, the hedge on the exchanges and one-sidedness. |
| `Lifecycle.UnreadEntryIsBoughtTwice` | fandos1/internal/engine/engine.go:525-569 | A run without ambiguity that ends in MONITORING with books 1/1 and 2 against 1 open, for every way of losing the answer to the executed entry order. |
| `Lifecycle.EmptyBooksCloseSilently` | fandos1/internal/execution/close.go:106-110 | A DEGRADED position with empty books is closed without an order, whatever is open. |
| `Lifecycle.AmbiguousEntryIsForgotten` | fandos1/internal/engine/engine.go:514-523 | A concrete run that ends CLOSED with both legs open on the exchanges. |
| `Lifecycle.SettleRegistersIff` | fandos1/internal/engine/engine.go:514-569 | After the entry orders, a position is registered exactly when a leg is ambiguous, or something filled and: matched fills with HEDGED and MONITORING stored, or a mismatch with PARTIALLY_HEDGED stored and a repair that failed or was followed by both stored. |
| `Lifecycle.OpenRegistersIff` | fandos1/internal/engine/engine.go:438-570 | A whole opening is registered exactly when its orders were sent and the condition above holds of their results; without orders nothing changed on either leg. |
| `Lifecycle.OpenForgetsNothing` | fandos1/internal/engine/engine.go:438-570 | While the store accepts PARTIALLY_HEDGED, HEDGED and MONITORING, an unregistered opening has nothing on its books, and open on its exchanges only the unread sum above. |
| `Lifecycle.RefusedHedgeIsForgotten` | fandos1/internal/engine/engine.go:557-562 | When the store refuses HEDGED or MONITORING, an opening with both legs filled and equal is not registered. |
| `Lifecycle.RefusedMendIsForgotten` | fandos1/internal/engine/engine.go:537-544 | When it refuses PARTIALLY_HEDGED, an opening with one leg filled is not registered. |
| `Lifecycle.EntryOrdersMatch` | fandos1/internal/engine/engine.go:462-514 | Both entry orders ask for the same quantity, the largest multiple of the coarser step within the target, positive and at least both minimums; the long limit is the ask and ProtectionTicks of the coarser ticks, the short limit the bid less as much, so with a non-negative number neither is limited short of the quote. |
| `Lifecycle.CooperativeOpenMonitors` | fandos1/internal/engine/engine.go:438-570 | With exchanges that execute and answer and a store that accepts, an opening ends registered in MONITORING with equal legs. |
| `Lifecycle.OperatorCanClose` | fandos1/internal/engine/engine.go:252-381 | Then a close request ends CLOSED, with min(long, short) gone from both exchanges. |
| `Outcomes.OpeningIs` | fandos1/internal/engine/engine.go:438-570 | Every opening, case by case: without a quantity, three stored records or quotes no order is sent; otherwise which orders go out, what is booked, what repair does, and in which state the position ends, for every answer of the store and every fill. |
| `Outcomes.EntryQtyIs` | fandos1/internal/engine/engine.go:463-470 | There is an entry quantity exactly when both instruments are known and the target, rounded down to the coarser step, is positive and at least both minimums. |
| `Outcomes.OpeningTrail` | fandos1/internal/engine/engine.go:472-562 | The history after an opening: exactly which transitions are recorded, and with which reasons. |
| `Outcomes.ClosingIs` | fandos1/internal/engine/engine.go:306-381 | Every close of a watched or degraded position, case by case: nothing without symbols or the EXIT_REQUESTED record, only the state without the EXITING record, otherwise the coordinated close of the booked quantities, its fills booked, and the state and the fate of the request by its error and the store. |
| `Outcomes.CloseDegradesIff` | fandos1/internal/engine/engine.go:345-381 | Once the exit records are stored, a close ends DEGRADED exactly when something is left on a leg and DEGRADED is stored; with a store that accepts everything it ends CLOSED or DEGRADED; the request is dropped exactly when something was left or CLOSED was reached. |
| `Outcomes.CloseTrail` | fandos1/internal/engine/engine.go:315-373 | What a close records, in every case: the request and the exit for the given reason, then what the coordinated close came to, in its words. |
| `Outcomes.MonitorActsIff` | fandos1/internal/engine/engine.go:252-291 | A position is closed exactly when it is watched and either the operator asked or the exit is configured and the spread flipped, or when it is degraded and the operator asked; an ended one is dropped; in every other case record, legs, registration and request are unchanged. |
| `Outcomes.FlipCloses` | fandos1/internal/engine/engine.go:272-276 | With cooperative legs a flipped spread closes a watched position without a request, and one that has not flipped leaves it alone. |
| `Outcomes.LifeIsSided` | fandos1/internal/execution/repair.go:149-161 | Over every life an order on a leg is reduce-only exactly when its side is opposite to the leg. |
| `Engine.Engine.constructor` | fandos1/internal/engine/engine.go:98-122 | Starts empty; a bound on positions or requotes that is not positive becomes 1 or 3, and everything else is as configured. |
| `Engine.Engine.RequestClose` | fandos1/internal/engine/engine.go:126-134 | Records the reason for the id, or the default reason. |
| `Engine.Engine.ClosePosition` | fandos1/internal/engine/engine.go:306-381 | Position, legs, registry and close request end as the close on values says. |
| `Engine.Engine.PlaceEntryLeg` | fandos1/internal/engine/engine.go:584-615 | One entry order, capped at the quantity, or an error without an executor. |
| `Engine.Engine.Settle` | fandos1/internal/engine/engine.go:514-569 | From the two entry results to MONITORING, DEGRADED or FAILED, as the function on values says. |
| `Engine.Engine.Enter` | fandos1/internal/engine/engine.go:438-570 | A whole opening refines the opening on values. |
| `Engine.PickedIsNew` | fandos1/internal/engine/engine.go:415-435 | The picked candidate is the first eligible one whose asset is not open; none is picked only if every eligible asset is open. |
| `Engine.Engine.TryOpen` | fandos1/internal/engine/engine.go:387-412 | Opens exactly when there is room, orders are enabled and there is a candidate; the new position is as the opening on values says and satisfies the position's invariant; the bound on open positions and the uniqueness of assets are kept. |
| `Engine.Engine.Monitor` | fandos1/internal/engine/engine.go:252-291 | Visiting in any order, every registered position is treated exactly as its own state and request say, whatever happens to the others; what stays registered is the same position under the same id, and nothing new is registered. |
| `Engine.Engine.Tick` | fandos1/internal/engine/engine.go:239-246 | A halted engine does nothing; otherwise every registered position is treated as above, and one position is opened exactly when the positions that stay leave room, orders are enabled and some eligible asset is free, none otherwise; the new one is new in all its parts, stands under the next number if the opening registers it, and is as the opening on values says; every position's invariant survives. |
| `Engine.Engine.Run` | fandos1/internal/engine/engine.go:126-246 | From a new engine, over every list of ticks and close requests: whatever is registered under any id is a life of Lifecycle, so it satisfies the invariant, the hedge on the exchanges, one-sidedness and the rule of sides; an id keeps its position, and new positions get new numbers. |
| `Outbox.AttemptsAreCommittedTries` | fandos1/internal/outbox/outbox.go:170-207 | Over every interleaving of n dispatchers with crashes, attempts equals the committed tries and is at most limit + n - 1. |
| `Outbox.BoundIsReached` | fandos1/internal/outbox/outbox.go:97-207 | For every n >= 1 and every configuration some run reaches exactly limit + n - 1, with a clock that never goes back, commits stamped with the current time and complete batches. |
| `Outbox.LimitIsKeptIff` | fandos1/internal/outbox/outbox.go:97-163 | No run takes an event past the limit exactly when there is at most one dispatcher. |
| `Outbox.CallsNeverOverlap` | fandos1/internal/outbox/outbox.go:152-167 | Between two handler calls for one event, the first has ended. |
| `Outbox.NothingAfterProcessed` | fandos1/internal/outbox/outbox.go:155-180 | After a commit that set processed_at the event is neither handled nor committed again. |
| `Outbox.ProcessedWasHandled` | fandos1/internal/outbox/outbox.go:167-180 | A processed event has had a successful handler call. |
| `Outbox.RowsStay` | fandos1/internal/outbox/outbox.go:170-203 | A row is never removed, never loses a try and never becomes unprocessed again. |
| `Outbox.CommitIs` | fandos1/internal/outbox/outbox.go:167-207 | The commit of a try adds one attempt; a success is processed; a failure is due again exactly at the commit time and the base, doubled once for each attempt the worker knew of. |
| `Outbox.RetryWaits` | fandos1/internal/outbox/outbox.go:181-203 | After a failed try no batch query returns the event before base * 2^(attempts the worker knew of) has passed. |
| `Outbox.RetryTimeIsKeptIff` | fandos1/internal/outbox/outbox.go:97-203 | Over all runs whose clock does not go back, no handler is called before the retry time of its event exactly when there is at most one dispatcher, or no backoff. |
| `Outbox.StaleBatchCallsEarly` | fandos1/internal/outbox/outbox.go:152-167 | With two dispatchers and a positive backoff, a plain run in which the handler is called again while the clock stands still: the locking query does not look at the retry time. |
| `Outbox.BatchExists` | fandos1/internal/outbox/outbox.go:97-106 | The batch query has a complete answer in every state: the oldest eligible unlocked rows. |
| `Outbox.FetchedAre` | fandos1/internal/outbox/outbox.go:85-106 | What is fetched is unprocessed, due, held by no one and below the limit, 3 by default, and at most as many rows as configured, 100 by default. |
| `Outbox.FullUnlessAllFetched` | fandos1/internal/outbox/outbox.go:85-106 | A complete batch leaves an eligible row out only when it is full, and then of rows that are no younger. |
| `Outbox.EventIsNeverLost` | fandos1/internal/outbox/outbox.go:85-209 | From every state an unprocessed event below the limit can still be delivered by such a plain run, even if all dispatchers die and older events fill the batches. |
| `Outbox.ApplyKeepsStructure` | fandos1/internal/outbox/outbox.go:152-165 | Every step keeps at most one lock holder per event and held rows unprocessed. |
| `Outbox.ApplyKeepsAccount` | fandos1/internal/outbox/outbox.go:140-209 | Every step keeps the row of an event in agreement with the log of its calls and commits. |
| `Outbox.Dispatcher.RunOnce` | fandos1/internal/outbox/outbox.go:85-138 | For any batch of eligible rows, complete or not, with others interleaved at every statement and with commits whose acknowledgement is lost, the batch loop is a run of the system, ends without a lock, and returns the number of events without an error. |
| `Outbox.OutcomesAreLogged` | fandos1/internal/outbox/outbox.go:141-209 | The outcomes of a batch are what the dispatcher leaves in the log: one call for each tried event, one commit for each success and for each committed failure, whatever others do in between. |
| `Outbox.WhatIsCounted` | fandos1/internal/outbox/outbox.go:126-137 | That number is committed tries less those whose acknowledgement was lost, plus skips; it is the committed tries exactly when as many were skipped as lost, and the successes exactly when skips and committed failures together are as many as lost. |
| `Outbox.CountedRightIff` | fandos1/internal/outbox/outbox.go:126-137 | When no acknowledgement is lost, it is the committed tries exactly when nothing was skipped, and the successes exactly when moreover no committed try failed. |
| `Outbox.OneProcessedNoneCounted` | fandos1/internal/outbox/outbox.go:126-209 | A batch of one, processed and committed, reported as none because the acknowledgement of the commit was lost. |
| `Outbox.NothingProcessedTwoCounted` | fandos1/internal/outbox/outbox.go:126-165 | A batch of two, one failed and one skipped, reported as two. |
| `Outbox.Dispatcher.ProcessEvent` | fandos1/internal/outbox/outbox.go:141-209 | One event is not begun, skipped, or locked, handled and committed or rolled back, in that order of steps; there is an error exactly when it was not begun, rolled back, or its commit not acknowledged. |
| `Breaker.CircuitBreaker.IsTripped` | fandos1/internal/rebalance/circuit_breaker.go:93-105 | True exactly when the scope's outcomes since its last reset contain max(1, threshold) consecutive failures. |
| `Breaker.CircuitBreaker.FailuresCount` | fandos1/internal/rebalance/circuit_breaker.go:180-189 | The current run of failures while untripped, the threshold once tripped. |
| `Breaker.CircuitBreaker.RecordFailure` | fandos1/internal/rebalance/circuit_breaker.go:109-128 | Keeps every scope's state equal to the meaning of its history. |
| `Breaker.CircuitBreaker.RecordSuccess` | fandos1/internal/rebalance/circuit_breaker.go:132-140 | The same for a success. |
| `Breaker.CircuitBreaker.Reset` | fandos1/internal/rebalance/circuit_breaker.go:144-153 | The same for a reset. |
| `Breaker.RunsOfExtended` | fandos1/internal/rebalance/circuit_breaker.go:118-127 | One more outcome completes a run of k failures exactly at the end. |
| `Breaker.ScopesAreIndependent` | fandos1/internal/rebalance/circuit_breaker.go:193-200 | A scope's outcomes depend only on its own events. |
| `Breaker.OnlyResetClears` | fandos1/internal/rebalance/circuit_breaker.go:130-153 | A tripped scope stays tripped through any events without its reset. |
| `Rebalance.Plan.Transition` | fandos1/internal/rebalance/state_machine.go:177-207 | Moves exactly when the state is not terminal, the dry-run guard allows it and the table has the edge. |
| `Rebalance.PlanMovesIff` | fandos1/internal/rebalance/state_machine.go:57-113 | Read along the chain: a plan that has not ended can always fail, can be cancelled until MAIN is confirmed, and can move to the next state unless it is a dry run at PLANNED; each refusal has its error. |
| `Rebalance.Executor.WaitConfirmation` | fandos1/internal/rebalance/executor.go:506-547 | The polling loop gives the verdict of the rounds. |
| `Rebalance.ConfirmedMeansObserved` | fandos1/internal/rebalance/executor.go:512-546 | Confirmed exactly when some round saw the confirmation and no earlier round ended the wait. |
| `Rebalance.TimedOutMeansNotSeen` | fandos1/internal/rebalance/executor.go:512-546 | A wait times out exactly when a round finds the deadline passed, or is the only one allowed and answered no, and no earlier round ended it. |
| `Rebalance.Executor.ExecuteTest` | fandos1/internal/rebalance/executor.go:225-326 | From any state of the plan, plan, breaker history, transfers and outcome are those of the TEST phase on values. |
| `Rebalance.Executor.ExecuteMain` | fandos1/internal/rebalance/executor.go:332-453 | The same for MAIN. |
| `Rebalance.TestEnds` | fandos1/internal/rebalance/executor.go:225-326 | From any state: which outcome a TEST call has, exactly, and which plan state each outcome leaves. |
| `Rebalance.MainEnds` | fandos1/internal/rebalance/executor.go:332-453 | The same for MAIN: a refused route, a fee above the cap and a failed transfer fail the plan; a tripped breaker and a call before TEST_CONFIRMED leave it as it was. |
| `Rebalance.DeliveryKeeps` | fandos1/internal/rebalance/executor.go:395-436 | Sending and awaiting a transfer keeps the plan's invariant when it was allowed at call start. |
| `Rebalance.AfterKeeps` | fandos1/internal/rebalance/executor.go:225-453 | Every call keeps the plan's invariant, under all failures of store, transfer and confirmation. |
| `Rebalance.MainIsSentOnceAndOnlyWhenAllowed` | fandos1/internal/rebalance/executor.go:225-453 | Over every sequence of calls, documented or not: at most one MAIN, only after an arrived TEST, with an approved route, an untripped breaker at call start and fee <= cap; COMPLETED means the full chain of eight states in order and an arrived MAIN; a dry run never reaches AWAITING_APPROVAL and sends no MAIN. |
| `Rebalance.TestIsSentIff` | fandos1/internal/rebalance/executor.go:232-278 | In any state a call sends one TEST transfer exactly when route, breaker, store and attempt record let it, and none otherwise. |
| `Rebalance.DryRunSendsIff` | fandos1/internal/rebalance/executor.go:217-254 | A dry run sends no TEST exactly when no call passes these guards; no documented call does. |
| `Rebalance.DryRunCanSendTest` | fandos1/internal/rebalance/executor.go:232-278 | One undocumented call on a new dry-run plan sends TEST. |
| `Rebalance.SecondTestIsPossibleIff` | fandos1/internal/rebalance/executor.go:277-325 | A documented call that sends TEST leaves the plan open for another exactly when the SENT status was not stored, or the arrival was seen and the CONFIRMED status not stored. |
| `Rebalance.TestTransfersAreReopenings` | fandos1/internal/rebalance/executor.go:225-326 | Over every documented sequence the TEST transfers number the calls of that kind, or one more. |
| `Rebalance.TestIsSentOnceUnlessReopened` | fandos1/internal/rebalance/executor.go:225-326 | So a new plan sends TEST at most once when there is no such call. |
| `Rebalance.TestTransferCanRepeat` | fandos1/internal/rebalance/executor.go:244-315 | After every such call a repetition sends the test amount again. |
| `Rebalance.TestIsReported` | fandos1/internal/rebalance/executor.go:277-315 | In the TEST phase the breaker hears one failure exactly when the phase fails, which also fails a plan that has not ended, one success exactly when the transfer arrived, and nothing otherwise. |
| `Rebalance.MainIsReported` | fandos1/internal/rebalance/executor.go:399-436 | The same for MAIN. |
| `Rebalance.GoodPlanCompletes` | fandos1/internal/rebalance/executor.go:225-453 | When everything outside works, an approved plan with an untripped breaker and a fee within the cap completes. |
| `Decimals.QuantizeIsLargest` | fandos1/internal/decimal/decimal.go:164-175 | Quantizing gives the largest multiple of the step that is not above the value. |
| `Decimals.QuantizeRoundedIff` | fandos1/internal/decimal/decimal.go:28-175 | With the quotient rounded to 28 digits the result is the same, and not above the value, exactly when the quotient is not rounded up to an integer; otherwise it is one step higher. |
| `Decimals.QuantizeCanExceed` | fandos1/internal/decimal/decimal.go:164-175 | A value just below 1 is quantized to 1. |
| `Planner.AmountIs` | fandos1/internal/rebalance/planner.go:122-188 | The amount is half the gap, or what the reserve leaves of it, in whole cents; it is due exactly when the gap exceeds the tolerance and the cents reach the minimum. |
| `Planner.ProposalIs` | fandos1/internal/rebalance/planner.go:98-202 | All of `Propose` for two equities without a debt: exactly when something is proposed, from whom to whom, and how much. |
| `Planner.RefusedIff` | fandos1/internal/rebalance/planner.go:98-115 | The errors: any number of exchanges but two, or a negative equity of one of the two. |
| `Planner.ProposalIsSafe` | fandos1/internal/rebalance/planner.go:69-202 | With a configuration that `NewPlanner` accepts, a proposal goes from richer to poorer, is a positive number of whole cents >= the minimum, leaves the source its target and its reserve, does not overfill the destination, and keeps the total. |
| `Planner.OneStepIsEnough` | fandos1/internal/rebalance/planner.go:98-202 | After applying a proposal the planner proposes nothing, in any visiting order. |
| `Planner.OrderOnlyNamesTheError` | fandos1/internal/rebalance/planner.go:106-140 | Two visiting orders differ exactly when both equities are negative. |
| `OrderBook.Walk` | fandos1/internal/orderbook/vwap.go:66-98 | The loop computes the greedy takes' cost, fill and completeness. |
| `OrderBook.WalkReports` | fandos1/internal/orderbook/vwap.go:36-98 | Nothing for a request that is not positive or an empty book; otherwise quantity, value, average and completeness as they should be. |
| `OrderBook.TakesSum` | fandos1/internal/orderbook/vwap.go:72-88 | The greedy takes are feasible and fill min(request, depth). |
| `OrderBook.WalkIsCheapest` | fandos1/internal/orderbook/vwap.go:36-50 | On ascending asks no feasible way of taking the same quantity costs less. |
| `OrderBook.WalkEarnsMost` | fandos1/internal/orderbook/vwap.go:52-62 | On descending bids none earns more. |
| `OrderBook.WalkSplits` | fandos1/internal/orderbook/vwap.go:66-98 | Walking a + b is walking a and then b on the rest of the book. |
| `OrderBook.VwapGrows` | fandos1/internal/orderbook/vwap.go:92-97 | On asks the average price never falls with the requested quantity. |
| `OrderBook.VwapShrinks` | fandos1/internal/orderbook/vwap.go:92-97 | On bids it never rises. |
| `OrderBook.AverageIsBetween` | fandos1/internal/orderbook/vwap.go:92-97 | The average price lies between the lowest and the highest price of the book. |
| `OrderBook.CheckDepthSufficient` | fandos1/internal/orderbook/vwap.go:144-153 | True exactly when some prefix of the levels sums to the quantity. |
| `OrderBook.DepthCheckIsSound` | fandos1/internal/orderbook/vwap.go:144-153 | For q > 0 it implies a full fill, and is equivalent to it when no level is negative. |
| `OrderBook.DepthCheckIsExactIff` | fandos1/internal/orderbook/vwap.go:66-153 | Check and walk agree for every positive quantity if and only if no negative level stands before a positive one. |
| `OrderBook.NegativeLevelHidesDepth` | fandos1/internal/orderbook/vwap.go:76-79 | A book with a negative level that fills although the check says no. |
| `Allocation.Allocate` | fandos1/internal/allocation/allocator.go:76-201 | The loop over the ranked requests gives the plan, its total and the remaining budget of the function on values. |
| `Allocation.One` | fandos1/internal/allocation/allocator.go:94-185 | One decision: the checks in their order, the smallest limit, the quotient capped at the wish. |
| `Allocation.VerdictIs` | fandos1/internal/allocation/allocator.go:94-173 | Each reason for a refusal exactly when it is the first that applies. |
| `Allocation.GrantIs` | fandos1/internal/allocation/allocator.go:175-185 | A refused request gets nothing; an accepted one the lesser of its wish and the quotient of the least limit and the price. |
| `Allocation.CapsHold` | fandos1/internal/allocation/allocator.go:155-198 | Each exchange, each asset and the total end at most at max(cap + eps * highest price, initial use). |
| `Allocation.NearestDivides` | fandos1/internal/decimal/decimal.go:28-128 | Division rounded to 28 digits is within half a unit of the last digit, which is the eps above. |
| `Allocation.GrantOvershootsIff` | fandos1/internal/allocation/allocator.go:176-182 | A grant exceeds what was allowed exactly when the quotient was rounded up and the request wanted more. |
| `Allocation.BudgetCanBeOverspent` | fandos1/internal/allocation/allocator.go:176-182 | With 28-digit rounding to nearest a budget of 2 at price 3 is overspent. |
| `Allocation.PlanIsMaximal` | fandos1/internal/allocation/allocator.go:117-198 | With exact division every request with positive quantity, score and price has all it wants or one of its limits is exhausted at the end. |
| `Allocation.TotalsAreConserved` | fandos1/internal/allocation/allocator.go:187-199 | Every limit is charged with exactly the notional allocated under it, once even when both legs are on one exchange. |
| `Allocation.OnePerRequest` | fandos1/internal/allocation/allocator.go:94-198 | The plan holds one allocation for each ranked request, in their order. |
| `Allocation.RankedIsStable` | fandos1/internal/allocation/allocator.go:78-82 | The ranking is a permutation, falls in score and keeps the order of equals. |
| `Allocation.LowerRankedChangeNothing` | fandos1/internal/allocation/allocator.go:94-198 | Leaving out all requests below a score changes no allocation at or above it. |
| `FixedPoint.AddIsExact` | fandos1/internal/decimal/decimal.go:266-274 | Overflow exactly when the sum leaves 64 bits, otherwise the sum. |
| `FixedPoint.MulIsExact` | fandos1/internal/decimal/decimal.go:277-290 | Overflow exactly when the product leaves 64 bits, otherwise the product, although it is computed with wrap-around. |
| `FixedPoint.CheckedDivisionFits` | fandos1/internal/decimal/decimal.go:281-288 | The division in the check is never the least number by -1. |
| `FixedPoint.AddWithIsExact` | fandos1/internal/decimal/decimal.go:293-302 | Exact at equal scales. |
| `FixedPoint.SubIsExactIff` | fandos1/internal/decimal/decimal.go:305-314 | Exact if and only if the subtrahend is not the least number. |
| `FixedPoint.NegIsExact` | fandos1/internal/decimal/decimal.go:317-322 | Overflow exactly for the least number. |
| `FixedPoint.MulIntIsExact` | fandos1/internal/decimal/decimal.go:326-332 | Exact or overflow. |
| `FixedPoint.ScalesAreChecked` | fandos1/internal/decimal/decimal.go:293-357 | Numbers of different scales are not added or subtracted, and scales outside 0 to 18 are refused, in each case exactly then. |
| `FixedPoint.FromDecimalIsExact` | fandos1/internal/decimal/decimal.go:353-378 | A success means d * 10^scale is the result; Overflow means it is an integer outside 64 bits; Lossy means it is no integer; nothing else happens. |
| `FixedPoint.DecimalRoundTrip` | fandos1/internal/decimal/decimal.go:343-378 | `FromDecimal(ToDecimal(f), scale of f)` is f. |
| `FixedPoint.String` | fandos1/internal/decimal/decimal.go:381-406 | The padding loop and the two-step negation give the literal, without leaving 64 bits. |
| `FixedPoint.LiteralRoundTrip` | fandos1/internal/decimal/decimal.go:381-406 | The printed form of every value reads back as unscaled / 10^scale with exactly scale fraction digits. |
| `TokenBucket.HttpClient.Refill` | fandos1/internal/exchange/httpclient/client.go:204-216 | Tokens and last fill change as the 64-bit formula says. |
| `TokenBucket.RefillIs` | fandos1/internal/exchange/httpclient/client.go:204-216 | One token for every 1/rps seconds, rounded down, up to the burst; the time counts as used exactly when it earned a token. |
| `TokenBucket.HttpClient.WaitToken` | fandos1/internal/exchange/httpclient/client.go:178-200 | Waiting is a run of looks at the bucket that ends with the first grant or with cancellation; without a limit there is none. |
| `TokenBucket.HttpClient.Do` | fandos1/internal/exchange/httpclient/client.go:104-149 | Bucket, number of requests and reply are those of the retry loop on values; at most max(0, maxRetries + 1) requests, at most one if unsafe, only retryable responses before the last; a reply without an error is the last response. |
| `TokenBucket.SentIff` | fandos1/internal/exchange/httpclient/client.go:104-149 | The j-th request is sent exactly when the bound allows it, every earlier one was safe, met a retryable response and was not cancelled, and every wait up to it got a token. |
| `TokenBucket.ReplyIs` | fandos1/internal/exchange/httpclient/client.go:104-149 | The reply fails exactly when the last response was retryable, or when there was an attempt and no request; it carries the status of a final answer, of any response to an unsafe request and of an answer followed by cancellation, and 0 otherwise. |
| `TokenBucket.RepeatedIff` | fandos1/internal/exchange/httpclient/client.go:118-145 | Without a rate limit a safe request is repeated exactly after a transport error, 429 or a status from 500; any other answer, a client error too, is returned at once without an error. |
| `TokenBucket.SeenGrowsSlowly` | fandos1/internal/exchange/httpclient/client.go:206-209 | However long a pause, the wrapped product never credits more than the time earned. |
| `TokenBucket.GrantsArePaidFor` | fandos1/internal/exchange/httpclient/client.go:178-216 | Grants up to an instant are covered by tokens in hand and time passed. |
| `TokenBucket.SlidingWindow` | fandos1/internal/exchange/httpclient/client.go:178-216 | Over the whole life of a client, the grants in any window are fewer than burst + 1 + rps * its length, even if the 64-bit product wraps. |
| `TokenBucket.TokensStayInBucket` | fandos1/internal/exchange/httpclient/client.go:204-216 | Tokens stay within [0, burst]. |
| `TokenBucket.WaitIsEnough` | fandos1/internal/exchange/httpclient/client.go:178-216 | Whoever looks when a token has been earned is granted one. |
| `TokenBucket.OneMoreIsNeeded` | fandos1/internal/exchange/httpclient/client.go:206-215 | Two grants one nanosecond apart at one per second and burst 1. |
| `ClientOrderId.SanitizeComponent` | fandos1/internal/execution/client_order_id.go:102-113 | The loop capitalises and filters. |
| `ClientOrderId.SanitizedIs` | fandos1/internal/execution/client_order_id.go:99-113 | The result has only A-Z, 0-9 and hyphens, and sanitizing again changes nothing. |
| `ClientOrderId.TailIs` | fandos1/internal/execution/client_order_id.go:84-95 | What is kept of the position id is its end, as much as there is room for. |
| `ClientOrderId.SomeIds` | fandos1/internal/execution/client_order_id.go:68-97 | Three ids in full. |
| `ClientOrderId.ParseAfterFormat` | fandos1/internal/execution/client_order_id.go:68-159 | Parsing a formatted id returns the sanitized purpose, the kept tail of the position id, leg, slice and nonce, for all parts, negative numbers included. |
| `ClientOrderId.FormatAfterParse` | fandos1/internal/execution/client_order_id.go:68-159 | Formatting the parsed parts reproduces the id. |
| `ClientOrderId.ScannedIs` | fandos1/internal/execution/client_order_id.go:143-150 | How a number in a field is read: blanks and one sign in front, whatever follows the digits ignored, none without digits or outside 64 bits. |
| `ClientOrderId.EqualIdsIff` | fandos1/internal/execution/client_order_id.go:68-97 | Two ids are equal exactly when all printed fields are. |
| `ClientOrderId.IdsOfOnePositionDiffer` | fandos1/internal/execution/client_order_id.go:68-97 | Within one position and purpose, ids are injective in leg, slice and nonce. |
| `ClientOrderId.Validate` | fandos1/internal/execution/client_order_id.go:168-183 | Accepts exactly the non-empty ids of at most 32 allowed characters. |
| `ClientOrderId.FormatIsValidIff` | fandos1/internal/execution/client_order_id.go:84-97 | A formatted id is valid exactly when purpose, separator and suffix fit in 32 characters. |
| `Sntp.PutNtpTime` | fandos1/internal/clocks/sntp.go:92-97 | Writes the eight bytes of the timestamp and no others. |
| `Sntp.BigEndianRoundTrip` | fandos1/internal/clocks/sntp.go:95-102 | Four bytes written read back as the same word. |
| `Sntp.NoOverflow` | fandos1/internal/clocks/sntp.go:94-103 | Both products fit in 64 bits. |
| `Sntp.SecondIsKeptIff` | fandos1/internal/clocks/sntp.go:92-105 | Decoding returns the same second exactly for the instants of 1900 to 2036. |
| `Sntp.NanosecondDrift` | fandos1/internal/clocks/sntp.go:94-104 | The nanoseconds lose exactly 1, or 0 for multiples of 5^9. |
| `Sntp.ReplyIsRefusedIff` | fandos1/internal/clocks/sntp.go:68-76 | Refused for its mode exactly when that is neither 4 nor 5, and as a kiss of death exactly when the mode is fine and the stratum 0. |
| `Sntp.OffsetIsAccurate` | fandos1/internal/clocks/sntp.go:68-88 | For any path delays and an encoding server, an accepted reply gives an offset within half the round trip plus 1.5 ns of the true one, and the reported milliseconds within one more millisecond; it is rejected only for a wrong mode or stratum 0. |
| `Sntp.RoundTripIsAccurate` | fandos1/internal/clocks/sntp.go:78-83 | The reported round trip is the time on both paths up to one nanosecond. |

## Left out

- Engine.Engine.constructor: the errors for missing dependencies and the default of the tick interval.
- Decimals.QuantizeIsLargest: the rounding of the quotient, which `QuantizeRoundedIff` describes; entry quantities and proposals use the exact quotient.
- Exchange REST and WebSocket code, signing, JSON, the HTTP and Telegram interfaces: plumbing and foreign protocols.
- SQL repositories, `Restore` and the leg upserts: library-backed; the two upserts are not atomic, so nothing is said across a crash.
- Liveness of positions that stay in OPENING, PARTIALLY_HEDGED, EXIT_REQUESTED, EXITING or RECONCILING: the monitor does not act on them. A close whose EXITING record is refused stays in EXIT_REQUESTED.
- Close requests that arrive while a tick is closing the same position; a request comes before or after a tick.
- Position PnL adders, snapshots, `UpdatedAt`, notifications, logging, metrics, order records.
- Average prices and fees of fills; the price limits of orders are carried but their effect on fills is the exchange's.
- A missing executor at close time, where the source would panic.
- `CloseOneLegEmergency`, `EntryBasis`, `ExitBasis`, `SlippageBps`, `EligibleAllocations`: short consequences of what is proved.
- A handler that outlives its dispatcher's database connection: PostgreSQL would free the lock while it still works.
- Overflow of the attempts column and of the backoff duration in the outbox; backoff is exact here.
- The amounts and the request ids of the two transfers, which are constants that the phases pass on.
- The quantities in the reason that is recorded with HEDGED.
- Which store records survive a failed `UpdatePlanState`, and the attempt records of transfers.
- Saturation of `time.Sub` beyond 292 years and overflow of 32-bit decimal exponents.
- HTTP backoff delays with jitter and the transport of one request.
- Decimal literals with exponents, and blanks other than space, tab and carriage return in front of scanned numbers.
- `ValidateForExchange`: the same kind of check with other limits.
- Uniqueness of client order ids across repeated closes of one position: slice numbers start at 0 again.
- The `MeasureOnce` loop, status reports and `ExchangeOffset` of the clock service.
- Halting, configuration, market-data cache, registry, funding calendar, scanner, scores and risk checks.
