# Verification of the broker's flow control, self-trade check, futures ledger and risk thread

This project models the parts of the broker that keep state over a whole trading day, and proves what
every run of them keeps. Each part is a specification on values, with theorems over all runs, and, where
the program updates objects in place, classes whose methods are proved to reach exactly the specified
state. `dafny verify dfyconfig.toml` checks everything.

- **Flow control.** `OrderNumbers` and `Validation` are the numbers and checks routing relies on;
  `FlowMessages` the requests; `StableOrder` the sort and its one-number key; `MarketLimiter` the limiter
  of one market as a function of its state, with the history the code does not keep; `MarketVisits` says
  of that history alone what a visit comes to; `MarketQueue` is the limiter in place; `FlowRouting` all
  markets together, `FlowRuns` their runs from the start, `MarketRates` the rates in what leaves,
  `FlowOrder` who is served before whom, `FlowReplies` what is answered, and `FlowControl` the same in
  place. `StateLog` is the file of daily totals and `DailyQuota` the story of crashes and restarts.
- **Self-trade check.** `RiskOrders` specifies books, orders and indexes; `SelfTradeSafety`,
  `RestingOrders`, `CheckLiveness`, `OrderIdentity`, `OrderIndexes`, `OrderLifetime`, `EarlyKnocks`,
  `EarlyReplay`, `ReplayExactness` and `TickPruning` are the theorems; `AntiSelfKnock` the classes.
- **Futures.** `FuturePositions` specifies positions, reports and the choice between opening and closing;
  `FutureLedger`, `ClosableHoldings`, `OpeningCap` and `KnockReplay` are the theorems; `FutureMaster` the classes.
- **Risk thread.** `RiskHandshake` is the interleaving of requester, reporters and risk thread, and its
  theorems; `RiskControls` puts the self-trade check behind it; `RiskMaster` is a call and the risk
  thread in place.

`Options` and `Trading` hold what the parts share.

Conventions. Time is an integer number of milliseconds and is passed in; a call that reads the clock more
than once sees one value, except that each item of a checked message may see its own time of day. Integers
are unbounded and amounts are real numbers. Exceptions are values: `None`, or a constructor that says what
was lost. The tables that map a code to its market, and the requirement of flow control by market, are
parameters. A message of the broker queue is a value that carries its error reply once it has one. The
orders that books, indexes and batches share by pointer are entries of one table under their order of
creation, so a change through one of them is seen through all.

Where code and comments differ, the code is modelled:

- the comment at src/risker/common/order_book.cc:207 speaks of a margin of five seconds, the code uses
  10000 ms;
- the comment at src/mem_broker/inner_future_master.cc:336-339 has CFFEX closes of yesterday's holding;
  in the code an explicit close is always turned into an opening, also when nothing was opened;
- a withdrawal of an opening order does not reduce the count of openings
  (src/mem_broker/inner_future_master.cc:236-238), so the count is a bound and not an equality;
- a check of an order is not a pure check: it prunes the book, handles ticks and moves the order time;
- the field for the request timeout is passed on without being read from the options
  (src/mem_broker/flow_control.cc:223-235), so it is a parameter here.

Where the program does not do what one would hope, a concrete input shows it and a theorem says exactly
when it does:

| what fails | input | exactly when it holds |
|---|---|---|
| the queue key orders by priority, then amount | `StableOrder.LargeOrderOvertakesWithdraw` | `StableOrder.KeyFaithfulExactly` |
| the scan finds the day's last total | `StateLog.OlderRecordHidesTotals` | `StateLog.ScanFindsLastTotalExactly` |
| a withdrawal is charged | `Validation.EmptyBatchIsFree` | `Validation.WithdrawIsChargedExactly` |
| the rate limit across a restart | `MarketLimiter.RestartForgetsWindow` | `MarketLimiter.SafeRestartExactly` |
| all early reports of a message are replayed | `EarlyReplay.FirstOfTwoLosesItsFills` | `ReplayExactness.ReplayIsExactExactly` |
| a response may come behind its reports | `EarlyKnocks.EarlyWithdrawIsLost` | `EarlyKnocks.PlacementMattersExactly` |
| late pruning of bids is pruning after every tick | `TickPruning.QuoteActsOnlyWithTrade`, `TickPruning.TinyQuoteHidesAsk` | `TickPruning.LateBidsAreEagerBidsExactly` |
| an attempt to withdraw ends an order 3 s later | an attempt and a failed reply up to 3 s later | `OrderLifetime.FailedReplyStartsAnew` |
| an order never overdraws a position | `FutureLedger.OutrightCloseOverdraws` | `FutureLedger.PlaceStaysCoveredExactly` |
| closes that name a day off SHFE, INE and CFFEX add up | `FutureLedger.MixedClosesLoseTrack` | `FutureLedger.NamedDayAddsUpExactly` |
| cancelling an order undoes it | `FutureLedger.CancelsLeaveTraces` | `FutureLedger.CancelUndoesOrderExactly` |
| the automatic choice closes what it can | `FutureLedger.RestOfTodayIsOpened` | `FutureLedger.AutoClosesExactly` |
| the cap bounds what is opened in a day | `OpeningCap.TwoFullOrdersPass` | `OpeningCap.CapHoldsExactly` |

## Model

| member | source | states |
|---|---|---|
| `MarketLimiter.RateLimit` | src/mem_broker/flow_control.cc:38-81 | For every run of arrivals and visits with a clock that never goes back and a positive limit, every closed interval of 1500 ms holds at most `tps` released commands, although only a pruned queue of send times is kept |
| `MarketLimiter.QueueIsTheStableSort` | src/mem_broker/flow_control.cc:141-153 | At every point of every run the queue, once resorted, is the one stable descending sort by key of the items that wait, in order of arrival, through lazy sorting, front pops and tail evictions |
| `MarketLimiter.CommandsBalance` | src/mem_broker/flow_control.cc:46-139 | In every run accepted commands are queued, released, refused for the day or timed out; `cmd_size_` is the sum of the queued sizes, the total is the initial value plus what was released, and stays within a positive daily limit it started within |
| `MarketLimiter.RunKeeps` | src/mem_broker/flow_control.cc:26-139 | Every run keeps the whole invariant: order, window, balance, and no queued item larger than the limit |
| `MarketLimiter.PopKeeps` | src/mem_broker/flow_control.cc:18-116 | One visit, whatever it comes to, keeps that invariant |
| `MarketLimiter.AcceptKeeps` | src/mem_broker/flow_control.cc:118-139 | So does an arrival, including one refused as larger than the limit |
| `MarketLimiter.ReleaseKeepsWindow` | src/mem_broker/flow_control.cc:68-78 | Releasing what fits the pruned send times keeps any `tps + 1` consecutive commands of the full history more than a window apart |
| `MarketLimiter.PruneSplits` | src/mem_broker/flow_control.cc:38-45 | Pruning removes a prefix of the send times, all of it out of the window |
| `MarketLimiter.SpacedBoundsCount` | src/mem_broker/flow_control.cc:38-45 | If any `n + 1` consecutive send times span more than a window, no closed window holds more than `n` |
| `MarketLimiter.LeavesInStableOrder` | src/mem_broker/flow_control.cc:46-115 | What leaves at the front is the earliest arrival with the largest key, what times out at the back the latest arrival with the smallest |
| `MarketLimiter.IdleOnlyWhenBlocked` | src/mem_broker/flow_control.cc:18-116 | A visit comes to nothing only when there is no side message and the queue is empty or its head does not fit the window |
| `MarketLimiter.QuietQueueGives` | src/mem_broker/flow_control.cc:38-81 | When the last release is more than a window ago, a visit gives a message exactly when there is one |
| `MarketLimiter.PopTotals` | src/mem_broker/flow_control.cc:56-76 | The total moves by exactly what is released, the persisted record follows it, and no release passes the daily limit |
| `MarketLimiter.RecoverKeeps` | src/mem_broker/flow_control.cc:13-16 | Taking over a recovered total keeps the invariant |
| `MarketVisits.VisitExactly` | src/mem_broker/flow_control.cc:18-116 | What a visit comes to, said of arrivals, send times and the clock: the first in turn is given up, refused for the day or released; if none of that, a side message, else a timeout for the last in turn if it was queued too long, else nothing |
| `MarketVisits.BackTimesOutExactly` | src/mem_broker/flow_control.cc:104-113 | When nothing can be done with the front and no side message waits, the latest arrival with the smallest key is answered with a timeout if and only if it is no withdrawal, has a timeout, and its age, or its age and a second for every full limit of commands that wait besides it, reaches that timeout |
| `MarketVisits.IdleExactly` | src/mem_broker/flow_control.cc:18-116 | A visit comes to nothing if and only if the front is stuck, nothing waits at the side and the back was not queued too long |
| `MarketVisits.FirstAttemptExactly` | src/mem_broker/flow_control.cc:46-83 | The first attempt judges the head by the commands sent in the window that ends now, though only pruned times are kept |
| `MarketVisits.PrunedIsRecent` | src/mem_broker/flow_control.cc:38-49 | What pruning leaves of the send times is as many as were sent in that window |
| `MarketQueue.FlowControlMarketQueue.TryPopPrimary` | src/mem_broker/flow_control.cc:26-88 | The in-place first attempt reaches the specified state and returns the specified message or error reply |
| `MarketQueue.FlowControlMarketQueue.TryPopSecondary` | src/mem_broker/flow_control.cc:90-116 | The in-place second attempt: a side message, or else a timeout at the tail judged by the commands ahead of it |
| `MarketQueue.FlowControlMarketQueue.TryPop` | src/mem_broker/flow_control.cc:18-24 | Both attempts together are one specified visit |
| `MarketQueue.FlowControlMarketQueue.ServeHead` | src/mem_broker/flow_control.cc:46-83 | Timeout, daily quota and window are asked of the head in that order; a release writes the total through to its record |
| `MarketQueue.FlowControlMarketQueue.PruneSent` | src/mem_broker/flow_control.cc:38-45 | The loop over the send times stops at the first one within the window |
| `MarketQueue.FlowControlMarketQueue.Sort` | src/mem_broker/flow_control.cc:141-153 | Sorts only when something arrived since the last sort |
| `MarketQueue.FlowControlMarketQueue.Push` | src/mem_broker/flow_control.cc:118-139 | An item that can never fit becomes an error reply in the side queue; any other is queued and counted |
| `MarketQueue.FlowControlMarketQueue.InitState` | src/mem_broker/flow_control.cc:13-16 | The queue takes over the total of its record |
| `StableOrder.SortIsTheStableSort` | src/mem_broker/flow_control.cc:149-151 | Anything sorted by key that keeps each class of equal keys in order of arrival is this sort |
| `StableOrder.SortIsStable` | src/mem_broker/flow_control.cc:149-151 | Items with equal keys keep their order of arrival |
| `StableOrder.SortIsLazy` | src/mem_broker/flow_control.cc:141-153 | Sorting once after later arrivals equals sorting before and after them |
| `StableOrder.FrontOfSort` | src/mem_broker/flow_control.cc:149-151 | The front of the sorted queue is the earliest arrival with the largest key, and what remains is the sort of the others |
| `StableOrder.BackOfSort` | src/mem_broker/flow_control.cc:105-111 | The back is the latest arrival with the smallest key, and what remains is the sort of the others |
| `StableOrder.KeyFaithfulExactly` | src/mem_broker/flow_control.cc:144-151 | The one-number key orders a queue as the commented-out comparator of priority and amount does if and only if no amount bridges the distance to an item of higher priority |
| `StableOrder.KeyOrdersAsComparator` | src/mem_broker/flow_control.cc:377 | It does so whenever all amounts lie in [0, 100000000) |
| `StableOrder.LargeOrderOvertakesWithdraw` | src/mem_broker/flow_control.h:14-17 | Without that bound it does not: an order worth 200000001 overtakes a withdrawal |
| `FlowRouting.RunConserves` | src/mem_broker/flow_control.cc:312-437 | Over every run every request that came in was returned once, unchanged or as an error reply to it, or lost to an exception, or is still queued; only requests with unparseable numbers are lost |
| `FlowRouting.NothingLost` | src/mem_broker/flow_control.cc:312-437 | If all numbers parse, requests in are exactly messages out plus what is queued |
| `FlowRouting.TryPopConserves` | src/mem_broker/flow_control.cc:312-343 | One call takes out exactly the message it returns or loses, and nothing else |
| `FlowRouting.NothingOnlyWhenBlocked` | src/mem_broker/flow_control.cc:312-343 | A call returns nothing only when the broker queue and all side queues are empty and every flow queue is empty or its head does not fit the window |
| `FlowRouting.QuietCallGives` | src/mem_broker/flow_control.cc:312-343 | When the last release of every queue is more than a window ago, a call takes out a message exactly when there is one: it is returned, or lost because its number does not parse; earlier calls do not matter |
| `FlowRouting.RunServes` | src/mem_broker/flow_control.cc:301-343 | Progress under the polling loop: in any run of arrivals and calls, every window, counted between calls more than 1500 ms apart with any calls between them, serves one of the messages that were in flight at the start, until there are none; and no call serves two |
| `FlowRouting.PollingDrains` | src/mem_broker/flow_control.cc:301-310 | Calls alone, however often, take out at least one message a window until all queues are empty |
| `FlowRouting.PollingGives` | src/mem_broker/flow_control.cc:301-310 | Once a call comes more than a window after the last release, it and the calls before it have taken out a message if there was one |
| `FlowRuns.ServiceInRuns` | src/mem_broker/flow_control.cc:301-343 | The same from every point of every run from the start on |
| `FlowRouting.EmptyMeansEmpty` | src/mem_broker/flow_control.cc:312-343 | Nothing in flight means all queues are empty |
| `FlowRouting.TryPopKeeps` | src/mem_broker/flow_control.cc:312-343 | A call keeps the invariant of every market queue |
| `FlowOrder.LinesAreInOrderOfArrival` | src/mem_broker/flow_control.cc:312-437 | At every point of every run, what waits in a market's queue, beside it or in the normal queue, followed by what of the broker queue goes there, is exactly what arrived for that place and was not returned, in order of arrival |
| `FlowOrder.FirstComeFirstServed` | src/mem_broker/flow_control.cc:312-343 | In every run, of two requests for one market with equal keys, or the first with the larger, the earlier is returned first unless the later is given up; of two that need no flow control, or are refused as too large for one market, always |
| `FlowOrder.MarketsServedInOrder` | src/mem_broker/flow_control.cc:327-342 | At every point of every run a call serves a market only when those configured before it have nothing to give, and the normal queue only when no market has |
| `FlowOrder.CallInTurn` | src/mem_broker/flow_control.cc:312-343 | One call takes one request from one line in its turn and leaves every other line as it was |
| `FlowReplies.AnswersAreRight` | src/mem_broker/flow_control.cc:345-437 | At every point of every run a call answers a request as itself or with the one error its market, size and number call for, and gives an order up only once its own or the configured time has passed, queueing counted |
| `FlowReplies.HighestClassIsServed` | src/mem_broker/flow_control.cc:360-420 | At every point of every run with order amounts in [0, 100000000): of what was not returned for a market, none is of a higher class than what a call returns, withdrawals before creations and redemptions before the rest, and none of its class is worth more |
| `FlowReplies.KeyIsClass` | src/mem_broker/flow_control.cc:365-377 | The key of a queued request is its class times 100000000 and, for other orders, the sum of price times volume |
| `FlowReplies.CheckedOrdersFit` | src/mem_broker/utils.cc:173-181 | With the batch limits of the check no larger than those of flow control, a checked message is never refused as too large |
| `FlowReplies.UnnumberedIsRefused` | src/mem_broker/flow_control.cc:388-408 | A withdrawal with neither number is refused for its number |
| `FlowControl.FlowControlQueue.TryPop` | src/mem_broker/flow_control.cc:312-343 | The in-place call: drain, poll the markets in order, then the normal queue |
| `FlowControl.FlowControlQueue.Push` | src/mem_broker/flow_control.cc:345-437 | A message goes to its market's queue with its priority, key, size and timeout, to the normal queue as it is or as an error reply, or throws when its number does not parse |
| `FlowControl.FlowControlQueue.DrainBroker` | src/mem_broker/flow_control.cc:318-326 | The loop over the broker queue stops early only at a number that does not parse |
| `FlowControl.FlowControlQueue.PollQueues` | src/mem_broker/flow_control.cc:327-336 | The loop over the markets stops at the first that gives a message |
| `FlowControl.FlowControlQueue.InitState` | src/mem_broker/flow_control.cc:237-299 | A start appends one record per market with the total found in the file and hands it to the market's queue |
| `FlowControl.FlowControlQueue.Init` | src/mem_broker/flow_control.cc:223-235 | One queue per configuration, in order; a market leads to the last queue configured for it, and to none if there is no such queue |
| `FlowControl.StateFile.LoadHistory` | src/mem_broker/flow_control.cc:248-269 | The backward scan finds, for every fund and market, what the scan function says |
| `FlowControl.RestartAll` | src/mem_broker/flow_control.cc:272-297 | All queues resume from one reading of the file |
| `StateLog.ScanFindsLastTotalExactly` | src/mem_broker/flow_control.cc:248-269 | The scan finds the last positive total of the day for a key if and only if no record of an earlier day stands behind it |
| `StateLog.ScanOfLast` | src/mem_broker/flow_control.cc:248-269 | With such a record behind it the scan finds zero, else exactly that total |
| `StateLog.ScanFindsLastTotal` | src/mem_broker/flow_control.cc:265-267 | In particular on a file whose dates never go back |
| `StateLog.OlderRecordHidesTotals` | src/mem_broker/flow_control.cc:265-267 | On a file with an older record out of order the scan loses the day's total |
| `StateLog.ScanRaise` | src/mem_broker/flow_control.cc:74-76 | Writing a larger total into the last record of a key raises what the scan finds for that key and for no other |
| `StateLog.StartKeepsScan` | src/mem_broker/flow_control.cc:271-297 | The records a start appends change no total |
| `DailyQuota.QuotaHolds` | src/mem_broker/flow_control.cc:56-76 | Through any starts, visits, crashes and restarts of one date, the total a file starts with and the commands handed out since never exceed the total in the file, which never exceeds the daily limit, or its start if the limit was lowered below that |
| `DailyQuota.QuotaHoldsFromWithin` | src/mem_broker/flow_control.cc:56-76 | So from a total within the limit, that total and the commands handed out since stay within the limit |
| `DailyQuota.RunKeeps` | src/mem_broker/flow_control.cc:237-299 | Every such run keeps running totals equal to their records and to what the next scan would find |
| `DailyQuota.VisitKeeps` | src/mem_broker/flow_control.cc:68-79 | A visit keeps it, as the total is written before the message is returned |
| `FlowRouting.EveryMarketKeepsItsRate` | src/mem_broker/flow_control.cc:312-343 | Over any run of flow control as a whole, every closed interval of 1500 ms holds at most as many commands of a market as its limit allows |
| `MarketRates.MarketRateHolds` | src/mem_broker/flow_control.cc:312-437 | From its start on, with requests that passed their check: the order lines and the withdrawn orders of a market in the messages that calls return within any closed interval of 1500 ms are no more than the limit of the market |
| `MarketRates.NothingLateLeaves` | src/mem_broker/flow_control.cc:46-115 | At every point of every run, an order that a call returns as itself is younger than its own and the configured timeout, and nothing but an order is ever answered with a timeout |
| `MarketRates.RunCharges` | src/mem_broker/flow_control.cc:68-79 | Over every run the send times of a queue count exactly the commands of the messages that calls returned for it, at the times of the calls |
| `FlowRuns.FlowControlHolds` | src/mem_broker/flow_control.cc:312-437 | From its start on, in every run, flow control returns every request once or still holds it unless its number does not parse, and every market keeps its rate and stable order |
| `FlowRuns.HighestPriorityInRuns` | src/mem_broker/flow_control.cc:144-151 | At every point of every run in which order amounts stay in [0, 100000000), what leaves the front of a market's queue has the highest priority waiting, then the largest amount, then the earliest arrival |
| `FlowRouting.HighestPriorityFirst` | src/mem_broker/flow_control.cc:144-151 | The same for any queue whose waiting items are keyed and bounded so |
| `MarketLimiter.SafeRestartExactly` | src/mem_broker/flow_control.cc:13-16 | A restart empties the send times. Over a history that kept the limit, it holds in every closed window whatever is sent after the restart, if and only if the commands of the last window and those there is still room for, by rate and by what is left of the day, are together no more than the limit: all known at the restart |
| `MarketLimiter.RestartInRunExactly` | src/mem_broker/flow_control.cc:13-16 | The same for a restart at any point of any run |
| `MarketLimiter.RateAcrossRestartExactly` | src/mem_broker/flow_control.cc:38-45 | For two given runs with a restart between them: the limit holds in every closed window of their joint sends if and only if no command of the second run comes within a window of the one a limit's number of commands before it in the first |
| `MarketLimiter.RestartForgetsWindow` | src/mem_broker/flow_control.cc:13-16 | One command before and one right after a restart break a limit of one |
| `MarketLimiter.WindowsBoundedExactly` | src/mem_broker/flow_control.cc:38-45 | Send times keep a limit in every closed window if and only if any limit plus one consecutive ones span more than a window |
| `OrderNumbers.OrderNoRoundTrip` | src/mem_broker/utils.cc:41-78 | Parsing undoes creation for every positive market and any number text, dashes included |
| `OrderNumbers.BatchNoRoundTrip` | src/mem_broker/utils.cc:80-123 | The same for batch numbers, every positive market and size |
| `OrderNumbers.FastPathAgrees` | src/mem_broker/utils.cc:59-77 | The one-digit fast path agrees with the general path wherever it applies |
| `OrderNumbers.ParsesExactly` | src/mem_broker/utils.cc:56-78 | A text parses if and only if its first dash follows at least one digit and only digits |
| `OrderNumbers.DecimalRoundTrip` | src/mem_broker/utils.cc:50-71 | The decimal text of a natural number reads back as that number |
| `Validation.CheckTradeOrderMessage` | src/mem_broker/utils.cc:155-209 | The loop passes exactly the acceptable messages, fills in missing markets, and otherwise reports the problem of the first order at fault |
| `Validation.NoProblemExactly` | src/mem_broker/utils.cc:155-211 | A message is acceptable if and only if no order of it is found at fault |
| `Validation.WithdrawPassesExactly` | src/mem_broker/utils.cc:214-251 | A withdrawal passes if and only if it has a number and, for spot, that is a digit from 1 to 9, a dash and a rest, or 1, 2, 3 or 9, a dash, one to three digits, a dash and a rest on the same line |
| `Validation.WrittenMarketIsCharged` | src/mem_broker/utils.cc:219-240 | The market written into a checked spot withdrawal that came without one is that of its number, for the first two markets |
| `Validation.ChargeIsExact` | src/mem_broker/flow_control.cc:350-379 | A message that passed has all its orders in the market it is charged to, and the charge is their number |
| `Validation.CheckedWithdrawIsRouted` | src/mem_broker/utils.cc:211-251 | A spot withdrawal that passes its check is routed without a parse exception and with a positive market |
| `Validation.SpotOrderNoParses` | src/mem_broker/utils.cc:230-233 | A checked spot order number parses, with the market of its first digit |
| `Validation.SpotBatchNoParses` | src/mem_broker/utils.cc:242-247 | A checked spot batch number reads as its first digit, the number written between the dashes and the rest |
| `Validation.WithdrawIsChargedExactly` | src/mem_broker/utils.cc:211-251 | A checked spot withdrawal is charged at least one command if and only if it names an order or the size in its batch number has a digit other than zero; the charge is that size |
| `Validation.EmptyBatchIsFree` | src/mem_broker/utils.cc:244-247 | A batch number of size zero that passes the check and is charged nothing |
| `SelfTradeSafety.CrossingIsUnchecked` | src/risker/common/order_book.cc:55-129 | In every reachable book, of a bid and an ask that cross at encoded prices the one inserted later entered without the check |
| `SelfTradeSafety.CheckedRunsNeverCross` | src/risker/common/order_book.cc:55-129 | A run without auction-time requests and response-only orders keeps every bid strictly below every ask |
| `CheckLiveness.PassedOrdersBlock` | src/risker/common/order_book.cc:55-129 | In every run: once a request has passed in session, each of its covered buys and sells blocks every request in session with an item of its code on the other side at its price or better, until it is filled or ended, its response or a refused withdrawal is overdue, a response without a number rejects it, or a tick reaches it |
| `CheckLiveness.StandingOrdersBlock` | src/risker/common/order_book.cc:68-119 | The same from any state in its place, for any order that stands and that no waiting tick reaches |
| `CheckLiveness.PassedOrderStands` | src/risker/common/anti_self_knock_risker.cc:61-86 | A covered buy or sell of a request that passes, checked in session, stands in its book as the item states it |
| `RestingOrders.PassedOrdersStand` | src/risker/common/anti_self_knock_risker.cc:61-86 | After a request has passed, every book holds what it held and one entry per covered item of its code, on the side of the request, at the encoded price, with a new identity; nothing else changes |
| `CheckLiveness.RunKeepsStanding` | src/risker/common/order_book.cc:68-198 | Over every run of events that spare it, an order that stands goes on standing or is found finished |
| `CheckLiveness.AuctionsAreUnchecked` | src/risker/common/order_book.cc:55-67 | Out of session nothing is checked and no book changes |
| `CheckLiveness.AnsweredOrderStands` | src/risker/common/order_book.cc:131-198 | A response with a number leaves an order of that number in the book, at the item's side and price: one of its message if there is one at the price, else a new one |
| `CheckLiveness.AnswerTakesTheFirst` | src/risker/common/order_book.cc:138-151 | Of several orders of one message at one price the first is numbered, or taken out and nothing else |
| `CheckLiveness.TicksAfterCheckAreIgnored` | src/risker/common/order_book.cc:204-209 | Ticks up to 10 s after a check in session change nothing |
| `CheckLiveness.TicksReachOpenBooks` | src/risker/common/anti_self_knock_risker.cc:305-311 | A tick changes the book of its code only, and opens none |
| `SelfTradeSafety.CheckItemsClears` | src/risker/common/anti_self_knock_risker.cc:38-59 | A message whose check passes has nothing in the way of any of its checked items, as all are checked before any is inserted |
| `SelfTradeSafety.CheckClears` | src/risker/common/order_book.cc:55-120 | A check only removes orders; one that passes outside auction time leaves no order in the way |
| `SelfTradeSafety.RestItemsKeeps` | src/risker/common/anti_self_knock_risker.cc:61-86 | Inserting the items of a checked message makes no cross with each other or with the book |
| `SelfTradeSafety.AnswerItemsKeeps` | src/risker/common/anti_self_knock_risker.cc:88-139 | A response makes no cross except with orders first heard of in it |
| `SelfTradeSafety.StepKeeps` | src/risker/common/anti_self_knock_risker.cc:38-336 | Every event keeps sides sorted and crossings among unchecked orders only |
| `OrderIdentity.OrdersStandInTheirPlaces` | src/risker/common/order_book.cc:122-198 | In every reachable state a resting order stands in the book of its code, on its side and at its encoded price |
| `OrderIdentity.RunSteps` | src/risker/common/anti_self_knock_risker.cc:38-336 | Over every run orders keep identity, code, side, price and time of creation, marks that end them stay, and only responses to their message give them numbers |
| `OrderIdentity.AnswerFiles` | src/risker/common/order_book.cc:131-198 | The order a response answers an item with is of its message, code, side and encoded price |
| `OrderIndexes.ReportReachesExactly` | src/risker/common/anti_self_knock_risker.cc:203-222 | A report reaches exactly the order of its number: a fill adds its volume, a withdrawal or failure ends it; no other order changes but for being found finished |
| `OrderIndexes.WithdrawalMarksExactly` | src/risker/common/anti_self_knock_risker.cc:141-201 | A withdrawal and its reply mark exactly the orders they name, by batch number first, and only a success forgets anything: the batch it names |
| `OrderIndexes.FinishForgetsExactly` | src/risker/common/anti_self_knock_risker.cc:313-335 | A finished order takes its own number out of the index, and its batch if and only if all of the batch are finished |
| `OrderIndexes.BatchesStayNamed` | src/risker/common/anti_self_knock_risker.cc:313-335 | Over every run, while one order of a batch is not finished, a withdrawal of the batch names all its orders, unless the batch was withdrawn or its number given to others |
| `OrderIndexes.ResponseFilesBatch` | src/risker/common/anti_self_knock_risker.cc:88-139 | After a response with a batch number, a withdrawal of the batch names an order for each covered, numbered item, at its code, side and price, unless that is finished |
| `EarlyKnocks.PlacementDoesNotMatter` | src/risker/common/anti_self_knock_risker.cc:88-139 | For a one-item order on a covered code, wherever the response comes among reports of any kind the end is the same, as long as those before it are the order's own and none is a withdrawal |
| `EarlyKnocks.PlacementMattersExactly` | src/risker/common/anti_self_knock_risker.cc:203-250 | With a withdrawal before the response, its place does not matter if and only if an earlier report ended the order, or only withdrawals stand between and another withdrawal follows the response at once |
| `EarlyKnocks.PlacementNeverMattersElsewhere` | src/risker/common/anti_self_knock_risker.cc:122-127 | For directions that are neither buy nor sell the place of the response never matters |
| `EarlyKnocks.ResponseReplays` | src/risker/common/anti_self_knock_risker.cc:108-137 | A response replays what was kept for it as if it came in just then |
| `EarlyKnocks.EarlyWithdrawIsLost` | src/risker/common/anti_self_knock_risker.cc:222-224 | A withdrawal that comes before the response is lost, one after it is recorded and takes the order out of the index; the two never end alike |
| `EarlyReplay.OnlyTheLastIsReplayed` | src/risker/common/anti_self_knock_risker.cc:95-137 | A response of any number of items replays the reports that wait for the last item some wait for, and drops those of all others |
| `EarlyReplay.OtherReportsHaveNoEffect` | src/risker/common/anti_self_knock_risker.cc:110-113 | The response ends as if the reports waiting for any item but that last one had never come |
| `EarlyReplay.FirstOfTwoLosesItsFills` | src/risker/common/anti_self_knock_risker.cc:110-113 | For two items with reports waiting for both, those of the first have no effect |
| `ReplayExactness.ReplayIsExactExactly` | src/risker/common/anti_self_knock_risker.cc:88-139 | In every reachable state, for items with numbers and places of their own, the response leaves what replaying all waiting reports would leave if and only if those of every item but the last fill nothing and do not end their order |
| `ReplayExactness.LastForAllExactly` | src/risker/common/anti_self_knock_risker.cc:134-138 | The same for any reports of orders that stand apart in the index |
| `ReplayExactness.NoEffectExactly` | src/risker/common/anti_self_knock_risker.cc:203-220 | Reports change nothing if and only if they fill nothing and do not end their order; otherwise it shows in the index or the filled volume |
| `TickPruning.AskFallsExactly` | src/risker/common/order_book.cc:204-275 | Pruning takes out an ask if and only if some tick since the last pruning, no earlier than 10 s after the last check, has its best bid at the price or above, or its trade price above it |
| `TickPruning.AsksKeepTheirOrder` | src/risker/common/order_book.cc:256-275 | What is left of the asks is left in its order |
| `TickPruning.LateAsksAreEagerAsks` | src/risker/common/order_book.cc:204-275 | Aggregating ticks and pruning once at the next check leaves the same asks, in order, as pruning after each tick |
| `TickPruning.LatePruningOfAsks` | src/risker/common/order_book.cc:238-275 | The loop with its early exit removes exactly the asks the aggregate trades |
| `TickPruning.AskTradedByOne` | src/risker/common/order_book.cc:204-265 | The aggregate trades an ask if and only if one of the ticks does on its own |
| `TickPruning.LateBidsAreEagerBidsExactly` | src/risker/common/order_book.cc:204-296 | For bids, pruning once and pruning after every tick leave the same if and only if no resting bid is reached by a quote beside some trade price but by no tick with a trade price, and none that a tick takes out is hidden by a price that rounds to zero |
| `TickPruning.QuotedLateBidsAreEagerBidsExactly` | src/risker/common/order_book.cc:251-296 | For prices that do not round to zero: if and only if, once a trade price was seen, every resting bid some tick trades is traded by a tick with a trade price |
| `TickPruning.LateBidsAreEagerBids` | src/risker/common/order_book.cc:251-296 | In particular when every accepted tick carries a trade price that does not round to zero |
| `TickPruning.LatePruningOfBids` | src/risker/common/order_book.cc:251-296 | Which bids the loop with its early exit takes out, told tick by tick: none unless a trade price was seen and none rounded to zero, and then those a quote or a trade price reaches |
| `TickPruning.EagerPruningOfBids` | src/risker/common/order_book.cc:204-296 | Which bids pruning after every tick takes out |
| `TickPruning.BidTradedByOne` | src/risker/common/order_book.cc:204-284 | The aggregate trades a bid if and only if some quote reaches it and no quote rounded to zero, or the same for trade prices; it is acted on if and only if some trade price was seen and none rounded to zero |
| `TickPruning.QuoteActsOnlyWithTrade` | src/risker/common/order_book.cc:251-254 | A concrete bid that falls to a quote only together with a later trade price |
| `TickPruning.TinyQuoteHidesAsk` | src/risker/common/order_book.cc:243-254 | A quote that rounds to zero hides the asks quoted beside it |
| `RiskOrders.EncodeIsMonotone` | src/risker/common/order_book.h:30-32 | Encoding keeps the order of prices |
| `RiskOrders.EncodeIsNearest` | src/risker/common/order_book.h:30-32 | Encoding is the nearest ten-thousandth, halves away from zero |
| `RiskOrders.EncodeDecodes` | src/risker/common/order_book.h:30-36 | Encoding undoes decoding |
| `AntiSelfKnock.OrderBook.HandleTradeOrderReq` | src/risker/common/order_book.cc:55-120 | The in-place check: ticks, then finished orders, up to the first active order in the way |
| `AntiSelfKnock.OrderBook.HandleTradeOrderRep` | src/risker/common/order_book.cc:131-198 | The in-place response: the first order of the price and message id is numbered or erased, or a new one is inserted |
| `AntiSelfKnock.OrderBook.OnTradeOrderReqPass` | src/risker/common/order_book.cc:122-129 | Inserts behind equal prices on the side of the order |
| `AntiSelfKnock.OrderBook.OnTick` | src/risker/common/order_book.cc:204-236 | Keeps the extremes of accepted ticks |
| `AntiSelfKnock.OrderBook.TryHandleTick` | src/risker/common/order_book.cc:238-306 | Prunes both sides and forgets the ticks |
| `AntiSelfKnock.AntiSelfKnockRisker.HandleTradeOrderReq` | src/risker/common/anti_self_knock_risker.cc:38-59 | Checks the covered items in turn, up to the first that is blocked |
| `AntiSelfKnock.AntiSelfKnockRisker.OnTradeOrderReqPass` | src/risker/common/anti_self_knock_risker.cc:61-86 | Creates and inserts an order for each covered item |
| `AntiSelfKnock.AntiSelfKnockRisker.HandleTradeOrderRep` | src/risker/common/anti_self_knock_risker.cc:88-139 | Answers each covered item, files orders and the batch, and replays early fills |
| `AntiSelfKnock.AntiSelfKnockRisker.OnTradeKnock` | src/risker/common/anti_self_knock_risker.cc:203-250 | A fill or failure moves a known order or is kept; a withdrawal of an unknown order is dropped |
| `AntiSelfKnock.AntiSelfKnockRisker.OnOrderFinish` | src/risker/common/anti_self_knock_risker.cc:313-335 | Drops a batch once all its orders are finished, and the order's own entry |
| `AntiSelfKnock.AntiSelfKnockRisker.HandleTradeWithdrawReq` | src/risker/common/anti_self_knock_risker.cc:142-164 | Marks the orders a withdrawal names, by batch number first |
| `AntiSelfKnock.AntiSelfKnockRisker.HandleTradeWithdrawRep` | src/risker/common/anti_self_knock_risker.cc:166-201 | Marks them withdrawn, or failed when the reply carries an error |
| `AntiSelfKnock.AntiSelfKnockRisker.SweepSide` | src/risker/common/order_book.cc:73-94 | Takes finished orders off a side up to the first active one in the way |
| `AntiSelfKnock.AntiSelfKnockRisker.OnTick` | src/risker/common/anti_self_knock_risker.cc:305-311 | A tick reaches only a book that exists |
| `OrderLifetime.CheckBlocksExactly` | src/risker/common/order_book.cc:68-119 | Outside auction time a check blocks if and only if, ticks considered, an order that is not finished stands on the other side at the price or better |
| `OrderLifetime.SweepBlocksExactly` | src/risker/common/order_book.cc:73-94 | Asking orders whether they are finished, and dropping them and their batches, changes no later answer of the same check |
| `OrderLifetime.UnansweredOrdersStopBlocking` | src/risker/common/order_book.cc:28-36 | Over every run in which its message is not answered, no order a request created blocks any check from 3 s after the request on |
| `OrderLifetime.EndedOrdersNeverBlock` | src/risker/common/order_book.cc:18-25 | Over every run an order that was found finished or was withdrawn never blocks a check again |
| `OrderLifetime.WithdrawnOrdersAreFinished` | src/risker/common/anti_self_knock_risker.cc:166-201 | A withdrawal that succeeds finishes every order it names at once and touches no other |
| `OrderLifetime.AttemptedOrdersStopBlocking` | src/risker/common/anti_self_knock_risker.cc:141-201 | Over every run, an order that a withdrawal named blocks no check from 3 s after the last attempt or failed reply that names it, whatever else happens |
| `OrderLifetime.FailedReplyStartsAnew` | src/risker/common/anti_self_knock_risker.cc:182-196 | A failed reply starts the 3 s anew: after an attempt and a failed reply the order is finished when asked later if and only if it ended otherwise or 3 s have passed since the reply |
| `OrderLifetime.RejectionUndoesRequest` | src/risker/common/order_book.cc:122-151 | Inserting an order and answering it without a number leaves the book as it was, for a message id new to its price |
| `OrderLifetime.InsertSplits` | src/risker/common/order_book.cc:122-129 | An order goes behind all orders of its price and before all worse ones |
| `FutureLedger.JointClosesAddUp` | src/mem_broker/inner_future_master.cc:250-329 | Off SHFE, INE and CFFEX, over every sound run frozen volume is the outstanding close volume, closed volume the filled one, and frozen and available volumes of both days stay non-negative, though fills and cancels are taken today-first; closes that name a day included, as long as the guard of their bucket is true |
| `FutureLedger.NamedDayAddsUpExactly` | src/mem_broker/inner_future_master.cc:297-329 | There, a fill or cancel of a close that names a day keeps the sums in line with the orders if and only if that guard is true |
| `FutureLedger.MixedClosesLoseTrack` | src/mem_broker/inner_future_master.cc:260-310 | The guard can be false: closes with and without a day on one position leave volume frozen for nothing and overdraw today |
| `FutureLedger.SplitBucketsAddUp` | src/mem_broker/inner_future_master.cc:246-329 | On SHFE, INE and CFFEX each bucket holds exactly the volumes booked to it, nothing is overdrawn, and the guards before frozen volume is taken off are always true |
| `ClosableHoldings.ClosableIsHeld` | src/mem_broker/inner_future_master.cc:37-77 | Over every sound run of a day, what a sell can close of a contract is the reported long holding and what buys opened since, less what sells closed or have to close; what a buy can close likewise for the short side; and day by day where closes name one |
| `ClosableHoldings.FilledOpeningIsClosable` | src/mem_broker/inner_future_master.cc:495-528 | An opening that is filled raises what the other direction can close by its volume, and nothing else of either position |
| `ClosableHoldings.YesterdayClosesExactly` | src/mem_broker/inner_future_master.cc:429-488 | The chooser that spares today closes exactly what yesterday's holding covers, for index futures only before an opening was counted, and names the day on SHFE and INE |
| `ClosableHoldings.AutoFlagNamesTheDay` | src/mem_broker/inner_future_master.cc:372-412 | The automatic choice closes with a flag for the day on SHFE and INE, yesterday first, and with a plain close elsewhere |
| `ClosableHoldings.OrderNamesItsMarket` | src/mem_broker/inner_future_master.cc:351-355 | An order that names its market is judged by that market |
| `ClosableHoldings.ForcedClosesAreCloses` | src/mem_broker/inner_future_master.cc:242-246 | Forced closes are booked as plain ones, and flags without a name, or none, book nothing |
| `ClosableHoldings.NothingToBook` | src/mem_broker/inner_future_master.cc:79-140 | Nothing is booked before the start of the day, for other directions, without a positive flag, or for a confirmation |
| `ClosableHoldings.BeyondFrozen` | src/mem_broker/inner_future_master.cc:260-329 | A fill of more than is frozen counts as closed and leaves what is frozen; a cancel of more does nothing |
| `ClosableHoldings.TypesAreTwoLetters` | src/mem_broker/inner_future_master.cc:230-231 | The type of a contract is its first two letters, if more follow |
| `FutureLedger.DayTallies` | src/mem_broker/inner_future_master.cc:37-333 | Over every sound run of a day all positions are in line with the orders |
| `FutureLedger.StepKeeps` | src/mem_broker/inner_future_master.cc:79-187 | Every order, reply and report keeps positions in line with the orders |
| `FutureLedger.ChosenCloseIsCovered` | src/mem_broker/inner_future_master.cc:335-488 | Both choosers flag a close only when what it would freeze is available |
| `FutureLedger.PlaceStaysCoveredExactly` | src/mem_broker/inner_future_master.cc:79-108 | On every exchange and with every flag, placing an order overdraws neither position of its contract if and only if it is refused, opens, or closes no more than is available of what its flag closes: of the day it names, of yesterday where a close means that, else of both days |
| `FutureLedger.FreezeStaysCoveredExactly` | src/mem_broker/inner_future_master.cc:246-329 | The same for freezing on one position, for every flag and market |
| `FutureLedger.OutrightCloseOverdraws` | src/mem_broker/inner_future_master.cc:297-301 | A close of today given outright for a contract without holdings makes the available volume negative |
| `FutureLedger.CancelUndoesOrderExactly` | src/mem_broker/inner_future_master.cc:211-333 | Cancelling an order whole restores its position if and only if, for an opening, others are pending and, for a close that names no day, none is pending on today or today alone covers it |
| `FutureLedger.CancelsLeaveTraces` | src/mem_broker/inner_future_master.cc:220-295 | The only pending opening stays pending when cancelled, and a close over both days can come back on the wrong day |
| `FutureLedger.FrozenCoversEveryOrder` | src/mem_broker/inner_future_master.cc:260-329 | What an order has outstanding is never more than what its bucket holds frozen |
| `FutureLedger.AutoClosesExactly` | src/mem_broker/inner_future_master.cc:372-412 | Which orders the automatic choice closes, against what could be closed at all: what both days together hold off SHFE, INE and CFFEX; on SHFE and INE all but an order for exactly the rest of today; for index futures only what yesterday's holding covers, and nothing once an opening is counted |
| `FutureLedger.RestOfTodayIsOpened` | src/mem_broker/inner_future_master.cc:372-413 | An order for exactly the rest of today is opened on SHFE, and for index futures, though a close would be covered |
| `FutureLedger.ClosableExactly` | src/mem_broker/inner_future_master.h:18-24 | When some close would be covered by the two available volumes |
| `OpeningCap.CountBoundsExposure` | src/mem_broker/inner_future_master.cc:225-240 | With closing today forbidden, the count of a type bounds today's initial, opened and pending volume over any set of its contracts and both sides |
| `OpeningCap.CountStaysUnderCap` | src/mem_broker/inner_future_master.cc:372-399 | The count never exceeds the larger of its initial value and the cap |
| `OpeningCap.OnceOpenedNeverClosed` | src/mem_broker/inner_future_master.cc:380-389 | Once a type has an opening counted, no later order on its contracts is flagged as a close |
| `OpeningCap.CapHoldsExactly` | src/mem_broker/inner_future_master.cc:225-240 | From any start of a day and over any contracts of a type, every sound run adds no more to today's initial, opened and pending volume than the cap leaves, if and only if closing today is forbidden or the start already counts up to the cap |
| `OpeningCap.AddedIsOpened` | src/mem_broker/inner_future_master.cc:189-241 | What a run adds to that volume is what its orders opened or have pending |
| `OpeningCap.TwoFullOrdersPass` | src/mem_broker/inner_future_master.cc:226-240 | Otherwise two orders, each as large as what the cap leaves, are both opened |
| `OpeningCap.CapIsPerOrderUnlessForbidden` | src/mem_broker/inner_future_master.cc:226-240 | Without that prohibition nothing is counted and the cap limits each order alone |
| `OpeningCap.StepCounts` | src/mem_broker/inner_future_master.cc:189-241 | Each step moves the count by at least what it opens; it never goes down, also not for a cancel |
| `OpeningCap.DayStarts` | src/mem_broker/inner_future_master.cc:37-70 | A day starts with the count of what the report held today |
| `KnockReplay.RepeatsChangeNothing` | src/mem_broker/inner_future_master.cc:142-187 | Processing any list of reports equals processing it without later repeats of an accepted number, for positions, numbers seen and the opening count |
| `KnockReplay.RedeliveryChangesNothing` | src/mem_broker/inner_future_master.cc:161-165 | Delivering any of the reports again, in any order and number, changes nothing |
| `KnockReplay.FirstReportsAreDistinct` | src/mem_broker/inner_future_master.cc:161-165 | The list without repeats holds no accepted number twice |
| `FutureMaster.InnerFutureMaster.Update` | src/mem_broker/inner_future_master.cc:189-333 | The in-place switch over flags changes one position and the opening count as specified |
| `FutureMaster.InnerFutureMaster.HandleOrderReq` | src/mem_broker/inner_future_master.cc:79-108 | Freezes the volume of a flagged order |
| `FutureMaster.InnerFutureMaster.HandleOrderRep` | src/mem_broker/inner_future_master.cc:110-140 | Releases the volume of a rejected order |
| `FutureMaster.InnerFutureMaster.HandleKnock` | src/mem_broker/inner_future_master.cc:142-187 | Applies a complete report once |
| `FutureMaster.InnerFutureMaster.GetAutoOcFlag` | src/mem_broker/inner_future_master.cc:335-427 | The chosen flag, or none when the cap throws; an unseen code gets its positions either way |
| `FutureMaster.InnerFutureMaster.GetCloseYesterdayFlag` | src/mem_broker/inner_future_master.cc:429-488 | The same for the chooser that closes yesterday's holding only |
| `FutureMaster.InnerFutureMaster.GetPosition` | src/mem_broker/inner_future_master.cc:495-528 | Finds the long or short position an order works on, creating both for an unseen code |
| `FutureMaster.InnerFutureMaster.InitPositions` | src/mem_broker/inner_future_master.cc:37-77 | Starts the day from a report, keeping numbers seen and counts |
| `FutureMaster.FuturePosition.UpdateCloseEither` | src/mem_broker/inner_future_master.cc:250-295 | Freezes, fills and releases today's holding first, then yesterday's |
| `RiskHandshake.HandshakeIsSafe` | src/risker/risk_master.cc:308-333 | In every interleaving of one requester, any reporters and the risk thread, neither unexpected-state throw is reached, at most one request is on its way, and the result is not read while it is still to be written |
| `RiskHandshake.EveryCallGetsItsVerdict` | src/risker/risk_master.cc:119-188 | Every answered call was left with the verdict on its own request, as handling all messages pushed before it one after the other gives it, or with the caller's own text when there is none |
| `RiskHandshake.RiskersSeeTheQueueInOrder` | src/risker/risk_master.cc:119-223 | The riskers see each message once, in the order pushed |
| `RiskHandshake.WaitEnds` | src/risker/risk_master.cc:315 | A waiting requester is answered once the risk thread has made the steps left, whatever the reporters push meanwhile |
| `RiskHandshake.WaitShrinks` | src/risker/risk_master.cc:120-188 | Each step of the risk thread brings the answer one step nearer, and no other step moves it away |
| `RiskHandshake.PassNeedsEveryConsent` | src/risker/risk_master.cc:135-145 | A request passes if and only if every risker consents, each in the state its predecessors left |
| `RiskHandshake.VerdictIsLabelled` | src/risker/risk_master.cc:147-151 | A verdict is empty exactly when the request passed; an objection that starts with a bracket is left as it is, any other is prefixed |
| `RiskHandshake.FirstObjectionDecides` | src/risker/risk_master.cc:135-140 | The first risker that objects is the last one asked, and its objection is the result |
| `RiskHandshake.ToldInOrder` | src/risker/risk_master.cc:135-218 | Riskers are asked, and told of passes and reports, one after the other in their order |
| `RiskHandshake.StepKeeps` | src/risker/risk_master.cc:119-345 | Every step of every thread keeps the phase of the handshake, the order of messages and the answers given |
| `RiskMaster.RiskMasterImpl.HandleMessage` | src/risker/risk_master.cc:125-218 | Riskers are asked in turn up to the first objection; only without one are all told of the pass; an objection is labelled unless it starts with a bracket |
| `RiskMaster.RiskMasterImpl.HandleRequest` | src/risker/risk_master.cc:308-333 | One call from the test for idle over the wait to giving the state back, with any steps of the other threads between its own: an interleaving of the specification that ends, throws exactly when it does not find idle, and is else left with the verdict on its own request |
| `RiskMaster.RiskMasterImpl.AwaitDone` | src/risker/risk_master.cc:315 | The wait ends with the state done as long as the risk thread makes a step between two looks |
| `RiskControls.CrossingIsUncheckedUnderThreads` | src/risker/risk_master.cc:119-223 | However requester, reporters and risk thread interleave, of a bid and an ask that cross in a book of the self-trade check the later one was let in unchecked by one of the messages handled |
| `RiskControls.NoCrossingUnderThreads` | src/risker/risk_master.cc:119-223 | If no message lets an order in unchecked, no interleaving brings a bid up to an ask |
| `RiskControls.AnswersAreChecks` | src/risker/risk_master.cc:125-157 | However the threads interleave, an order request is answered without an error if and only if the self-trade check, after the messages pushed before it one after the other, does not block it |
| `RiskControls.HandlingIsStep` | src/risker/risk_master.cc:125-299 | Handling a message is one step of the self-trade check for a fund that has it, or is unknown and gets it now, and none for any other |
| `RiskControls.UnknownFundIsChecked` | src/risker/risk_master.cc:282-299 | A request of a fund that was not configured is checked for all codes, and the fund has the check from then on |
| `RiskMaster.RiskMasterImpl.RunOneStep` | src/risker/risk_master.cc:119-188 | Each step of the risk thread in place: pop, handle, test, store, publish |
| `RiskMaster.RiskMasterImpl.PushReport` | src/risker/risk_master.cc:335-346 | A report is only pushed |

## Left out

- Memory-mapped files, byte layouts, string buffers, logging, the text of errors and warnings, and the
  length check on `fund_id`: the state file is a log of records, an error reply is its kind.
- The counters behind warnings (`triggered_flow_control_size_`, `pre_warning_total_cmd_size_`) and
  `PopWarningMessage`: they decide nothing.
- `x::ToInt64` is foreign: it is taken to accept exactly a non-empty run of digits; signs and overflow of
  64 bits are not modelled.
- The lock-free queues: first in, first out.
- Overflow of 64-bit counters and rounding of floating-point amounts and prices: unbounded integers and
  real numbers.
- `MarketLimiter.Run`: sizes of commands are natural numbers; `FlowControlQueue::Pop` and its sleep are
  repeated calls of `TryPop`.
- `FlowOrder.FirstComeFirstServed`: the requests of a run are different from each other; each carries an
  identity that stands for its place in memory.
- `CheckLiveness.PassedOrdersBlock`: an order placed in an auction is not covered until its book is next
  checked in session, as ticks may still wait for it; `CheckLiveness.StandingOrdersBlock` covers any order
  that no waiting tick reaches.
- `EarlyKnocks.PlacementMattersExactly`: one item per message, all events at one clock, reports of the
  order's own, and a message id that belongs to one fund.
- `ReplayExactness.ReplayIsExactExactly`: items of one message with the same number, or with the same code
  and encoded price, share an order and are not covered; `EarlyReplay.OnlyTheLastIsReplayed` covers them.
- `SelfTradeSafety.CrossingIsUnchecked`: speaks of encoded prices, so of prices to four decimals.
- `FutureLedger.Sound`: fills and cancels stay within what is outstanding; closes given outright are
  covered, with `PlaceStaysCoveredExactly` as the exact condition; and closes that name a day where closing
  does not stay within their bucket, with `NamedDayAddsUpExactly` as the exact condition.
- `td_opening_volume_` is display only; what a cancel leaves of it is in `CancelUndoesOrderExactly`.
- The numbers of the flags are in a library that is not part of this model; the automatic flag is taken to
  be zero, as the tests use it (src/gtest/test_membroker/test_future_master.cc:35-39).
- Reading the CFFEX limits from a file: they are a parameter of `InitPositions`.
- The orders of a futures message are placed one at a time; the error reply after a refusal in the middle
  of a message (src/mem_broker/mem_base_broker.cc:116-127) is dispatch and not modelled.
- The risk thread's second loop, which reads the reports of other brokers
  (src/risker/risk_master.cc:224-275), and `OnTick`, which calls the riskers from the caller's thread.
- `RiskMaster.RiskMasterImpl.RunOneStep`: the loop body of the risk thread is given step by step, so that its
  steps can come between those of a call.
- `RiskControls.Check`: the text of an objection is a constant; the clock readings of a message come with it.
- Riskers that throw: the handlers of `RiskHandshake` are total functions.
- The option and stock masters, the `FancapitalRisker`, configuration, threads, timers and dispatch of the
  server.
