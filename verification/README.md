# Corporate catering: a verified model of the order, money and allotment logic

Employees order meals from vendors for a day and a plant. Stock is kept per menu item and day; payroll deducts the orders
that were picked up or missed, vendors are settled for the same orders, and complaints and disputes refund them. The
modules here model that logic from the API service and its load drivers, and prove what it keeps.

Objects whose methods update state (services over their tables, hubs, the ring, the rolling evaluator) are classes; their
methods are proved against functions on values, and the properties of whole runs are lemmas about those functions.
Transactions commit or leave the tables unchanged, with the conditions the SQL states: a decrement needs `sold_out = false`
and enough units, a restore is capped at the capacity, the status update of an order or a complaint is conditional on the old status; that of a
dispute is not.

| file | what it holds |
|---|---|
| OrderTypes, Stock, OrderDb | statuses, lines, supply rows; the transactions as commits over the tables |
| Conservation, Interleaving, OrderCases | remain + sold = capacity: per commit on fresh and stale reads, over interleaved runs, and runs that break it |
| OrderLog | the state-event path over any run, the race for the closing transition, outbox and audit |
| Catalog, Reorder | resolution and placement checks, reorder classification |
| OrderTerms, OrderDecisions, OrderService | what callers are promised, that the decisions are that, the services and serial runs |
| Grouping, PayrollLedger, PayrollService, LedgerEffects | drafts, disputes, both refund paths |
| Refunds, RefundBound, RefundCases | what refunds do to entries over runs, exactly when they stay within the amount, runs in which they do not |
| LedgerRaces, RaceCases | the same for commits on earlier reads |
| Settlement | per-vendor closing and voiding, and agreement with payroll |
| Complaints, ComplaintService | the complaint workflow over the payroll tables |
| Apportion, LunchRecords, Assignment, ReadyBatches | largest-remainder rounding, layout and rebuild of the matrix, batching |
| StressTools | order ring, weighted picker, nearest-rank percentile |
| Recommend, Hubs, OnTimeRate, PrepSheet | ranking and paging, fan-out hubs, rolling window, prep sheet |
| Vendors, VendorService, VendorRaces | vendor and operator states, serial and interleaved |

## Findings

Paths are below `services/api/internal/`. Where the code does less than its documentation or its neighbours suggest, the model follows the code and a lemma gives the
exact condition or a concrete case.

- Modify replaces the items without looking at the status, and Cancel and Modify use item lists read before their
  transactions (order/service.go:280-334, 400-451). Runs from empty tables lose units that way
  (`OrderCases.TwoModificationsLoseUnits`, `OrderCases.StaleCancelLosesUnits`, `OrderCases.ModifyAfterCancelLosesUnits`);
  `Interleaving.InterleavedRunExactly` says which runs stay in balance.
- The capped restore (quota/postgres/supply_repo.go:177-188) hides one family of stale cancels: an order that holds
  everything sold on a row may restore more than it holds (`Conservation.StaleCancelExactly`, `OrderCases.CapHidesStaleCancel`).
- SetCapacity forgets how far a capacity was below the units sold (quota/service.go:42-56): raising it again offers units
  that are sold (`Stock.ClampForgetsDeficit`, `Stock.CapacitiesCompose`).
- MarkReady logs the status it read outside the transaction (order/service.go:478-510); a cutoff sweep in between leaves a log
  with a wrong step (`OrderCases.CutoffBreaksLog`). `OrderLog.LoggedRunExactly` says which runs keep every log a path.
- A comment in payroll/service.go:230-231 says that a dispute without an entry is linked to the entry that lists its order
  later. Nothing links it: such a refund flips the order but pays nothing into the entry (`RefundCases.EntrylessRefundMissed`);
  `Refunds.ResolveBookExactly` is the exact condition.
- A refund resolution also counts for an order that was refunded before, so an entry can be refunded beyond its amount
  (payroll/service.go:316-338, `RefundCases.TwoDisputesOverRefund`). `RefundBound.WithinExactly` and
  `RefundBound.BoundedRunExactly` say exactly when no entry is.
- A dispute is read before the transaction and its row is then overwritten whatever its status
  (payroll/postgres/dispute_repo.go:57-69): two resolutions of one dispute both count (`RaceCases.OneDisputeTwice`). A draft
  commits orders listed earlier and a reversal pays into the entry found earlier (`RaceCases.DraftAfterReversal`,
  `RaceCases.ReversalAfterDraft`). `LedgerRaces.InterleavedBooksExactly` and `LedgerRaces.InterleavedWithinExactly` are the
  exact conditions.
- The reorder check looks at each line alone and at no sold-out flag (`Reorder.SurvivorsFitExactly`).
- Approving a suspended vendor leaves its operators vendor-suspended (`Vendors.ApprovalLeavesOperatorsBehind`), and creating
  an operator with the email of an individually suspended one activates it (`Vendors.OnlyReinstatedByHand`).
- The vendor service reads and updates without a transaction: a creation that read the approval stores an active operator
  after a suspension (vendors/service.go:238-281, `VendorRaces.CreationDuringSuspension`). `VendorRaces.InterleavedUpdatesExactly`
  says which interleavings stay safe.

## Model

| member | source | states |
|---|---|---|
| `Stock.TakeLines` | services/api/internal/order/reorder_service.go:292-303 | The decrement loop succeeds exactly when every quantity is positive and, for every item named, its row exists, is not sold out and has room for the sum of that item's lines; it then takes exactly those sums, and otherwise reports the error of the first line that does not fit behind the lines before it. |
| `Stock.TakeOneMore` | services/api/internal/quota/postgres/supply_repo.go:144-174 | One conditional decrement on top of a prefix succeeds exactly when the prefix plus that line fits as a whole, and leaves the rows of the longer prefix: stepwise and summed taking agree. |
| `Stock.GiveLines` | services/api/internal/order/service.go:286-294 | The restore loop fails only on a quantity that is not positive; a repeated item gets the sum of its lines, capped at the capacity, and a missing row is skipped. |
| `Stock.QuotaDeltaForModify` | services/api/internal/order/service.go:370-379 | The delta map names exactly the items of the two lists and maps each to desired minus current units, repeats added up. |
| `Stock.ApplyQuotaDelta` | services/api/internal/order/service.go:382-396 | For every order in which the map is iterated: success exactly when every positive delta fits its row, and then every row has moved by its delta. |
| `Stock.ApplyModification` | services/api/internal/order/service.go:370-396 | The two methods together, stated on the two item lists alone: succeeds exactly when each net increase fits, with the net result on every row of the date. |
| `Stock.NetSucceedsExactly` | services/api/internal/order/service.go:369-396 | The net delta succeeds exactly when each item that grows has a selling row with remain + current >= desired. |
| `Stock.NettedRow` | services/api/internal/order/service.go:382-396 | After it the row of item i has remain + current(i) - desired(i), and no row of another date has changed. |
| `Stock.NetRefinesReleaseThenTake` | services/api/internal/order/service.go:369-417 | Releasing everything and taking everything succeeds exactly when the net delta does and every desired item still sells, and both give the same rows. |
| `Stock.CapacitiesCompose` | services/api/internal/quota/service.go:42-56 | Two capacity changes in a row equal the last one alone exactly when the first covers the units sold or the second is no larger than the first. |
| `Stock.ClampForgetsDeficit` | services/api/internal/quota/service.go:42-56 | A capacity below the units sold, then the old one again: five units are offered that are already sold. |
| `Conservation.PlaceKeeps` | services/api/internal/order/service.go:187-218 | A placement keeps remain + sold = capacity on every row, and a balanced table after it was balanced before it. |
| `Conservation.StaleCancelExactly` | services/api/internal/order/service.go:280-309 | Cancel restores lines read before its transaction. The commit keeps conservation exactly when the units read equal the units stored on every row, save for a row on which this order holds everything sold and the capped restore absorbs a larger read. |
| `Conservation.StaleModifyExactly` | services/api/internal/order/service.go:400-418 | Modify replaces items whatever the status has become. On a live order the commit keeps conservation exactly when it read the stored units (up to the same cap); on an order cancelled meanwhile, exactly when the lists read and written need the same units or units only return to a row that sold none. |
| `Conservation.CapacityExactly` | services/api/internal/quota/service.go:42-64 | SetCapacity keeps conservation exactly when the sold count it read is the true one and fits the new capacity (or the clamp lands on it). |
| `Conservation.CommitConserves` | services/api/internal/order/service.go:187-218 | Every commit of any kind on fresh reads keeps conservation when a new capacity covers the units sold. |
| `Conservation.CommitCovers` | services/api/internal/quota/service.go:42-64 | With no bound on new capacities, remain + sold never falls below the capacity: no unit is lost, only over-sold after a clamp. |
| `Interleaving.MoveExactly` | services/api/internal/order/service.go:313-333 | With any number of callers holding reads of earlier states, one move leaves a balanced world balanced exactly when its commit meets the exact condition for its kind. |
| `Interleaving.InterleavedRunExactly` | services/api/internal/order/service.go:424-450 | Over every interleaving of reads and commits, the stock is in balance in all states of the run exactly when each commit of the run is balanced. |
| `Interleaving.UndisturbedRunsConserve` | services/api/internal/order/service.go:280-334 | A run stays in balance when no caller commits on an order that another Cancel or Modify changed since it was read, and no capacity is set from a changed row or below the units sold. |
| `OrderCases.TwoModificationsLoseUnits` | services/api/internal/order/service.go:400-451 | A run from empty tables: two callers read an order of three units and modify it to five and to one; both commit, and seven left with one sold, of ten, are two units lost. |
| `OrderCases.StaleCancelLosesUnits` | services/api/internal/order/service.go:280-334 | A run from empty tables: the order grows to five units between the read and the commit of a cancel, which gives back three. |
| `OrderCases.ModifyAfterCancelLosesUnits` | services/api/internal/order/service.go:400-451 | A run from empty tables: the order is cancelled between the read and the commit of a modification, which takes two units for the cancelled order. |
| `OrderCases.CapHidesStaleCancel` | services/api/internal/quota/postgres/supply_repo.go:177-188 | A run from empty tables: the order shrinks to one unit before the cancel that read three, and the capped restore leaves the row in balance all the same. |
| `Interleaving.OrdersNameRows` | services/api/internal/order/service.go:187-218 | In every reachable state an order names only items that have a supply row on its date, so a restore never meets a missing row. |
| `OrderLog.CommitKeepsLog` | services/api/internal/order/service.go:478-639 | Each commit keeps every order's state events a path of allowed transitions from none -> placed to its current status (or one step before it when payroll refunded the order without an event). |
| `OrderLog.StaleReadyExactly` | services/api/internal/order/service.go:478-510 | MarkReady logs the status it read but overwrites placed and cut-off rows alike: a batch commit keeps the log a path exactly when every status read is the status overwritten. |
| `OrderLog.LoggedRunExactly` | services/api/internal/order/service.go:478-531 | Over every run of commits of concurrent callers, on reads however stale, all logs are paths in all states exactly when each MarkReady commit read the statuses it overwrites. |
| `OrderCases.CutoffBreaksLog` | services/api/internal/order/service.go:478-510 | A run from empty tables: the order is placed and read, the cutoff sweep takes it, MarkReady commits on the read, and the log steps placed -> cutoff, placed -> ready. |
| `OrderLog.AtMostFourSteps` | services/api/internal/order/state_machine.go:3-12 | No order changes status more than four times after it was placed. |
| `OrderLog.OneCloserWins` | services/api/internal/order/service.go:533-639 | Over any sequence of commits of any callers, on reads however stale, at most one Cancel, Pickup or no-show commit of an order succeeds, and none once it is closed. |
| `OrderLog.CommitPublishes` | services/api/internal/order/service.go:195-217 | The outbox announces exactly the logged transitions in their order (modifications none), and the audit log mirrors the outbox row by row: a commit writes all three or none. |
| `Catalog.ResolveItems` | services/api/internal/order/service.go:114-140 | The loop returns the resolution of the whole list; a failure carries the reason of the first item that does not fit: its quantity, else its absence from the menu, else its other vendor. |
| `Catalog.ResolutionFails` | services/api/internal/order/service.go:114-140 | Resolution fails for exactly such a first misfit and with its reason. |
| `Catalog.ResolutionMeans` | services/api/internal/order/service.go:345-367 | Resolved lines carry current prices and positive quantities, all of one vendor (the order's own for a modification), with total = sum of price times quantity. |
| `Catalog.ResolutionSucceeds` | services/api/internal/order/service.go:114-140 | Every list of positive quantities from one vendor's menu resolves: nothing else is refused. |
| `Reorder.ClassifyItems` | services/api/internal/order/reorder_service.go:202-217 | One pass sorts the lines out: the sellable ones in order, repriced, and the others in order, each with the first check that it fails. |
| `Reorder.NoLineLost` | services/api/internal/order/reorder_service.go:202-248 | Survivors and unavailable lines are complementary in-order subsequences of the source lines. |
| `Reorder.ClassifyExactly` | services/api/internal/order/reorder_service.go:219-248 | A line survives exactly when its item is on the menu and not archived, has a row for the day, now is before the row's cutoff and the quantity is left; it keeps item and quantity and takes the current price. A dropped line tells the first of these checks that fails. |
| `Reorder.SortedOutUnique` | services/api/internal/order/reorder_service.go:202-217 | There is only one such sorting out. |
| `Reorder.SurvivorPasses` | services/api/internal/order/reorder_service.go:219-248 | A survivor is a sellable source line, unarchived item included, with the line's item and quantity and the menu's current price. |
| `Reorder.SurvivorsFitExactly` | services/api/internal/order/reorder_service.go:290-319 | Run alone, the transaction succeeds exactly when no survivor is flagged sold out and the survivors' sum for each item fits: the per-line check adds up nothing. |
| `Reorder.DistinctSurvivorsFit` | services/api/internal/order/reorder_service.go:219-248 | For distinct items with no sold-out flag the per-line check is enough. |
| `Reorder.RepeatedItemRefused` | services/api/internal/order/reorder_service.go:219-303 | Two lines of one item that each pass the check and are refused together. |
| `OrderService.Store.PersistPlaced` | services/api/internal/order/service.go:187-218 | All of stock, order, event, outbox and audit are written, or the state is unchanged and the first failing line's error is returned. |
| `OrderDecisions.PlaceOrderExactly` | services/api/internal/order/service.go:223-261 | The checks before the transaction pass exactly when the items are non-empty, of one vendor that serves the plant, now is before that vendor's cutoff and the date lies in its preorder window; the order built has the caller's user, plant, date and notes, the vendor, its cutoff, one line per item at the menu price and their total; a refusal is the first check that fails. |
| `OrderDecisions.PlaceExactly` | services/api/internal/order/service.go:187-276 | With the stock: Place commits exactly when besides each item has a selling row with all its units left. |
| `OrderService.Store.Place` | services/api/internal/order/service.go:223-276 | Succeeds exactly then; one new row as told, the rows before it as they were; a refusal changes nothing. It is the step of the serial runs below. |
| `OrderService.Store.Cancel` | services/api/internal/order/service.go:280-334 | Succeeds exactly for an existing placed order of the caller (quantities positive, as stored); the order is cancelled and every other row stays; existence, ownership and status errors in that order change nothing. It is the step of the serial runs below. |
| `OrderDecisions.ModifyExactly` | services/api/internal/order/service.go:345-451 | Modify commits exactly for non-empty items, an existing placed order of the caller with now before its cutoff, positive quantities of items on the menu of the order's vendor, and room for every item that grows. |
| `OrderDecisions.ModifiedLinesExactly` | services/api/internal/order/service.go:424-444 | The same for the checks before the transaction, with the lines at menu prices and, on refusal, the first check that fails. |
| `OrderService.Store.Modify` | services/api/internal/order/service.go:345-451 | Succeeds exactly then; the order has the new lines, their total and the notes and is otherwise as it was, as are all other orders; a refusal changes nothing. It is the step of the serial runs below. |
| `OrderService.Store.MarkReady` | services/api/internal/order/service.go:478-531 | Succeeds exactly when every listed order exists, is the vendor's, is placed or cut off and is listed once; then exactly those become ready with the instant, and otherwise nothing changes. |
| `OrderService.Store.Pickup` | services/api/internal/order/service.go:537-595 | Succeeds exactly for the owner of a ready order, which becomes picked up; every other row stays. |
| `OrderService.Store.MarkNoShow` | services/api/internal/order/service.go:601-639 | Exactly the stale ready orders become no-shows, for any order in which the query lists them, and the count is their number: a stretch of the serial runs below. |
| `OrderService.Store.SetCapacity` | services/api/internal/quota/service.go:32-71 | Succeeds exactly for the vendor of an item on the menu and a capacity not below zero; the row gets the capacity and cutoff asked for, keeps its sold-out flag, and has what the units sold leave, zero at least; every other row stays. |
| `OrderDecisions.ReorderExactly` | services/api/internal/order/reorder_service.go:151-284 | The checks pass exactly for the caller's own source order whose vendor serves the plant (and exists, if a line is sellable); the clone has the caller, the plant and day asked for, the source's vendor and its cutoff, the sellable lines and their total. |
| `OrderService.Store.Reorder` | services/api/internal/order/reorder_service.go:151-319 | The sellable lines become the one new row, or with none nothing happens; lines that do not fit together, or a failing check, change nothing; the dropped lines are reported with their reasons. |
| `OrderService.LoneCancelServes` | services/api/internal/order/service.go:280-334 | A read followed at once by its cancel is the call of the serial runs. |
| `OrderService.LoneModifyServes` | services/api/internal/order/service.go:400-451 | So is a read followed at once by its modification. |
| `Conservation.SoldOutStopsSales` | services/api/internal/quota/postgres/supply_repo.go:79-90 | A row flagged sold out takes no order that names its item, and lifting the flag offers the same units again. |
| `OrderTypes.ReachedFrom` | services/api/internal/order/state_machine.go:3-20 | The transition table read backwards: from where each status is reached. |
| `OrderService.SerialReadsAreFresh` | services/api/internal/order/service.go:313-333 | A call that runs alone commits on what is stored. |
| `OrderService.StockConserved` | services/api/internal/order/service.go:187-309 | In every state that any sequence of calls reaches from empty tables, with capacities at least the units sold, remain + sold = capacity and 0 <= remain on every row. |
| `OrderService.EveryRunKeeps` | services/api/internal/order/service.go:187-639 | Whatever capacities are set: no unit is lost, every order's log is a path of at most four steps to its status, and the outbox tells it. |
| `OrderService.TotalsMatchLines` | services/api/internal/order/service.go:345-418 | In every state of every run each order's stored total is the price of its stored lines. |
| `OrderService.CancelUndoesPlace` | services/api/internal/order/service.go:280-309 | Placing an order and cancelling it restores every supply row. |
| `PayrollService.AggregateOrdersByUser` | services/api/internal/payroll/service.go:79-91 | One pass gives exactly the users of the orders, each with its order ids in order and the sum of their totals. |
| `PayrollService.EntriesFromMap` | services/api/internal/payroll/service.go:95-116 | Whatever the order of map iteration, one entry per user. |
| `PayrollService.Store.BuildDraft` | services/api/internal/payroll/service.go:121-156 | Succeeds exactly for a period in order that no stored batch has; it adds that batch and the drafted entries behind all others, and otherwise changes nothing; over a disjoint period the tables stay sound. |
| `LedgerEffects.PeriodsStayDifferent` | services/api/internal/payroll/service.go:121-134 | Over every run, whatever periods are asked for and whatever is listed, no two batches have the same period. |
| `PayrollService.Store.Lock` | services/api/internal/payroll/service.go:160-184 | A batch that is locked, and every other batch, stays as it is; on success the batch carries its locker. Sound tables stay sound. |
| `LedgerEffects.LockedStays` | services/api/internal/payroll/service.go:160-184 | Over any run of calls a locked batch never changes: the first locker stays. |
| `PayrollService.Store.OpenDispute` | services/api/internal/payroll/service.go:196-226 | From sound tables a successful call is about a settled order of the opener and opens the very dispute that disputing by order would; tables stay sound. |
| `PayrollService.Store.OpenDisputeByOrder` | services/api/internal/payroll/service.go:232-272 | From sound tables it succeeds exactly for the opener's own orders that are charged or stand in some entry, and the dispute names an entry exactly when that entry lists the order. |
| `PayrollService.Store.ResolveDispute` | services/api/internal/payroll/service.go:286-352 | A dispute leaves the open status once; a failure changes nothing. From sound tables a refund lies within the order's total, leaves the order refunded and is paid into exactly the entry that lists it; a rejection moves neither orders nor entries. |
| `PayrollService.Store.ReverseOrder` | services/api/internal/payroll/reversal.go:24-80 | From sound tables it succeeds exactly for settled orders, leaves the order refunded and every other order alone, and pays the total of a charged order, nothing for a refunded one, into exactly the entry that lists it. |
| `LedgerEffects.ReverseEffect` | services/api/internal/payroll/reversal.go:24-80 | The same of the reversal itself: what the entry search amounts to, without naming it. |
| `LedgerEffects.ResolveEffect` | services/api/internal/payroll/service.go:286-338 | Resolution succeeds exactly for an open dispute with, for a refund, an amount within the order's total; its effect on orders and entries. |
| `LedgerEffects.ByOrderEffect` | services/api/internal/payroll/service.go:232-272 | Exactly which orders a user can dispute, and which entry the dispute names. |
| `PayrollLedger.BuildSound` | services/api/internal/payroll/service.go:79-156 | Drafting keeps: every entry lists distinct settled orders of its own user within its batch's period, with amount = the sum of their totals, and with disjoint periods no order is in two entries. |
| `PayrollLedger.StepSound` | services/api/internal/payroll/service.go:95-352 | Every step keeps that, and every dispute and refund note points at a settled order and its entry. |
| `PayrollLedger.FindEntryFinds` | services/api/internal/payroll/reversal.go:36-46 | The entry found is of the user and lists the order, and none is found only when there is none. |
| `Refunds.StepKeepsRecords` | services/api/internal/payroll/service.go:316-352 | RefundedMinor of every entry stays the sum of the refunds recorded against it, on both refund paths. |
| `Refunds.RunKeepsRecords` | services/api/internal/payroll/service.go:286-352 | The same over every run of drafts, locks, disputes, resolutions, reversals and order changes. |
| `Refunds.RecordedByOrder` | services/api/internal/payroll/service.go:316-338 | The refunds recorded against an entry split into those of its own orders: none is for an order outside it. |
| `Refunds.RunsWithinAmount` | services/api/internal/payroll/service.go:316-338 | In every run in which no order was refunded twice, by either path, 0 <= RefundedMinor <= AmountMinor on every entry. |
| `Refunds.GuardExactly` | services/api/internal/payroll/service.go:316-338 | A step keeps "refunded at most once, and once exactly when the status says so" exactly when it is not a refund resolution of an order already refunded. |
| `Refunds.GuardedRunsWithinAmount` | services/api/internal/payroll/service.go:316-338 | With that guard on every resolution the bound holds in every run. |
| `Refunds.ResolveBookExactly` | services/api/internal/payroll/service.go:230-338 | A refund resolution keeps RefundedMinor = totals of the refunded orders exactly when it pays a charged order's full total through its entry, nothing for an order already refunded, or concerns an order in no entry; an entry-less dispute whose order was drafted later breaks it. |
| `Refunds.ReversalsKeepBook` | services/api/internal/payroll/reversal.go:24-80 | Over any run of reversals (repeated, in any order) RefundedMinor = sum of the totals of the entry's refunded orders <= AmountMinor. |
| `Refunds.ReverseIdempotent` | services/api/internal/payroll/reversal.go:24-56 | Replaying a reversal changes nothing. |
| `Refunds.ReversalsCommute` | services/api/internal/payroll/reversal.go:24-80 | Two reversals give the same orders and entries in either order. |
| `RefundBound.WithinExactly` | services/api/internal/payroll/service.go:316-338 | Every successful step on sound tables keeps 0 <= RefundedMinor <= AmountMinor on every entry exactly when the entry that it pays from, if any, has the refund left. |
| `RefundBound.BoundedRunExactly` | services/api/internal/payroll/service.go:286-338 | Over every run from empty tables the bound holds in every state exactly when each refund that goes through has that much left on its entry. |
| `RefundBound.GuardedRunsFit` | services/api/internal/payroll/service.go:316-338 | Refunding each order at most once is enough for every refund to fit. |
| `RefundCases.TwoDisputesExactly` | services/api/internal/payroll/service.go:316-338 | A run from empty tables with two disputes of one order of 100, refunded in any two parts: within the amount exactly when the parts are together. |
| `RefundCases.TwoDisputesOverRefund` | services/api/internal/payroll/service.go:316-338 | Such a run with two full refunds: 200 refunded out of 100. |
| `RefundCases.EntrylessRefundMissed` | services/api/internal/payroll/service.go:230-272 | A run from empty tables: disputed while in no entry, drafted, refunded in full; the order is refunded and its entry has nothing of it. |
| `LedgerRaces.CommitKeeps` | services/api/internal/payroll/service.go:121-156 | Drafts, reversals and resolutions that commit on reads however old keep sound tables and RefundedMinor = the refunds recorded. |
| `LedgerRaces.CallsAreCommits` | services/api/internal/payroll/service.go:121-338 | A draft, reversal or resolution that runs alone is the commit of what it has just read. |
| `LedgerRaces.CommitWithinExactly` | services/api/internal/payroll/postgres/dispute_repo.go:57-69 | Such a commit, which overwrites a dispute whatever its status, keeps the bound exactly when the entry it pays from has the refund left. |
| `LedgerRaces.CommitBooksExactly` | services/api/internal/payroll/reversal.go:24-80 | Such a commit keeps RefundedMinor = the totals of the refunded orders exactly when a draft lists no order refunded meanwhile, a reversal found the entry that now lists its order, and a resolution pays what is due. |
| `LedgerRaces.InterleavedWithinExactly` | services/api/internal/payroll/service.go:286-338 | Over every interleaving of such commits the bound holds throughout exactly when each refund fits. |
| `LedgerRaces.InterleavedBooksExactly` | services/api/internal/payroll/service.go:121-156 | Over every interleaving RefundedMinor = the totals of the refunded orders throughout exactly when each commit meets its condition. |
| `RaceCases.OneDisputeTwice` | services/api/internal/payroll/service.go:286-314 | Two callers resolve one dispute after both read it open: 200 refunded out of 100. |
| `RaceCases.DraftAfterReversal` | services/api/internal/payroll/service.go:136-149 | A reversal between the listing of a draft and its commit: the entry charges a refunded order. |
| `RaceCases.ReversalAfterDraft` | services/api/internal/payroll/reversal.go:36-50 | A draft between the entry search of a reversal and its commit: the refund is paid into no entry. |
| `Settlement.Store.CloseSettlement` | services/api/internal/settlement/service.go:44-94 | Succeeds exactly for a period in order with orders and no closed row of any of the vendors over it: then one closed row per vendor with the period and the vendor's counts, gross and ids as summed up; otherwise no row; never two closed rows for one vendor and period. |
| `Settlement.RowMeans` | services/api/internal/settlement/postgres/settlement_repo.go:132-161 | A vendor's row has exactly the vendor's orders, how many they are, the units of their lines and their totals. |
| `Settlement.SettlementCounts` | services/api/internal/settlement/postgres/settlement_repo.go:132-161 | All rows together count every order once and every unit of every order once. |
| `Settlement.Store.VoidSettlement` | services/api/internal/settlement/service.go:98-119 | Only a closed row becomes void; its numbers and all other rows stay. |
| `Settlement.Store.CloseVoidClose` | services/api/internal/settlement/service.go:44-119 | A closed period is refused until its row is voided, and then closes with the same numbers. |
| `Settlement.DraftAgreesWithSettlement` | services/api/internal/settlement/service.go:44-94 | From the same orders and period, the user entries and the vendor rows add up to the same money and cover the same orders once each, whatever order either query lists them in. |
| `Settlement.SettlementMatchesNetDraft` | services/api/internal/settlement/postgres/settlement_repo.go:132-161 | Drafted first and settled after reversals: the vendors are paid exactly what the batch still deducts, amounts minus refunds. |
| `Complaints.CompensationSucceeds` | services/api/internal/feedback/service.go:266-295 | A compensated decision on an escalated complaint never fails in its second transaction: the complaint is closed and its order refunded. |
| `Complaints.CallKeepsDesk` | services/api/internal/feedback/service.go:133-333 | Every call keeps: at most one unresolved complaint per order, complaints only about settled orders of their user, escalations at least 24 hours after filing, compensated orders refunded. |
| `Complaints.EveryDeskRun` | services/api/internal/feedback/service.go:133-333 | Those hold over every run of complaint and payroll calls, together with RefundedMinor = refunds recorded. |
| `Complaints.CompensationsKeepBook` | services/api/internal/feedback/service.go:266-295 | Over any run in which refunds come from reversals only (repeated, in any order, directly or through compensated decisions), RefundedMinor of every entry = the totals of its refunded orders <= AmountMinor. |
| `ComplaintService.Service.FileComplaint` | services/api/internal/feedback/service.go:133-182 | Succeeds exactly for a known category, a description of 5 to 1000 bytes and the owner of a picked-up order without an unresolved complaint; one new open complaint with the order's vendor; a refusal, the first check that fails, changes nothing. |
| `ComplaintService.Service.Respond` | services/api/internal/feedback/service.go:186-209 | Succeeds exactly for an unanswered complaint of the vendor with a text of five bytes or more; that complaint alone changes, and the desk stays sound. |
| `ComplaintService.Service.Escalate` | services/api/internal/feedback/service.go:214-237 | Succeeds exactly for the owner of a complaint neither escalated nor resolved, 24 hours or more after filing; that complaint alone changes, and the desk stays sound. |
| `ComplaintService.Service.EmployeeResolve` | services/api/internal/feedback/service.go:241-261 | Succeeds exactly for the owner before escalation; that complaint alone changes, the desk stays sound, and the order has no open complaint left. |
| `ComplaintService.Service.AdminResolve` | services/api/internal/feedback/service.go:266-295 | From a sound desk the two transactions in sequence succeed exactly for an escalated complaint with a text, close it, and on compensation leave its order refunded by one reversal; a failure changes nothing. |
| `Apportion.LargestRemainder` | services/api/cmd/lunch-flow/main.go:1301-1331 | For any positive weights the counts sum to exactly the total, each is the floor or ceiling of its exact share, and a strictly heavier weight never gets a smaller count, whatever order the sort gives ties. |
| `Apportion.LeftoverInBounds` | services/api/cmd/lunch-flow/main.go:1316-1330 | The leftover is below the number of inexact shares, so within [0, n-1]: the bonus index stays in bounds. |
| `Apportion.BonusIsInexact` | services/api/cmd/lunch-flow/main.go:1316-1330 | Every index that gets a bonus unit has a positive fraction, so no count exceeds the ceiling of its share. |
| `Apportion.LargerNotSmaller` | services/api/cmd/lunch-flow/main.go:1316-1330 | Handing the leftover to the first indices by fraction never overtakes a larger share. |
| `Apportion.MerchantPickupMatrix` | services/api/cmd/lunch-flow/main.go:1333-1366 | Each row of the matrix is such an apportionment of its pickup point's count. |
| `Assignment.CellsCount` | services/api/cmd/lunch-flow/main.go:1429-1445 | The layout holds each (plant, vendor) cell exactly as often as its matrix entry says. |
| `Assignment.CellsInBlocks` | services/api/cmd/lunch-flow/main.go:1429-1445 | When each row sums to its plant's count the layout never leaves a plant's block. |
| `Assignment.MakePlants` | services/api/cmd/lunch-flow/main.go:1368-1379 | Plants numbered by position with their counts. |
| `Assignment.MakeVendors` | services/api/cmd/lunch-flow/main.go:1381-1405 | Each vendor's total is its column sum. |
| `Assignment.MakeEmployees` | services/api/cmd/lunch-flow/main.go:1407-1427 | One employee per unit of each plant's count, plant after plant. |
| `Assignment.AssignOrders` | services/api/cmd/lunch-flow/main.go:1429-1445 | In place, every employee gets exactly one vendor, that of its cell, and nothing else changes. |
| `Assignment.RebuildMatrix` | services/api/cmd/lunch-flow/main.go:1456-1491 | Counts the orders of every cell whose plant and vendor are known, then overwrites plant counts and vendor totals with the sums. |
| `Assignment.OrdersHaveTheirCells` | services/api/cmd/lunch-flow/main.go:1456-1470 | With distinct keys the index maps bring each order back to the cell it was laid out for. |
| `Assignment.RowOrderIrrelevant` | services/api/cmd/lunch-flow/main.go:1456-1470 | The cell counts are the same for every order of the rows. |
| `Assignment.SetupAndReload` | services/api/cmd/lunch-flow/main.go:1368-1491 | Setup then reload, with the rows coming back in any order, returns the original matrix, plant counts and vendor totals, with every order in its plant's block. |
| `Assignment.Scenario` | services/api/cmd/lunch-flow/main.go:1301-1491 | Apportion, assign and reload: one order per employee, and the reloaded rows are apportionments of the apportioned plants. |
| `ReadyBatches.CutBatches` | services/api/cmd/lunch-flow/main.go:1158-1169 | A list cut up joins to itself again; every batch is full but possibly the last, and their number is the ceiling of the quotient. |
| `ReadyBatches.CeilDivIsCeiling` | services/api/cmd/lunch-flow/main.go:1158-1169 | That number is the least one whose batches hold all ids. |
| `ReadyBatches.EligibleExactly` | services/api/cmd/lunch-flow/main.go:1147-1151 | Eligible are exactly the orders without a status, placed or cut off. |
| `ReadyBatches.VendorIdsExactly` | services/api/cmd/lunch-flow/main.go:1146-1152 | A vendor's ids are those of its own eligible orders. |
| `ReadyBatches.EligibleCovered` | services/api/cmd/lunch-flow/main.go:1141-1157 | The vendors' ids together are the eligible ids, each as often as it occurs. |
| `ReadyBatches.BuildReadyBatches` | services/api/cmd/lunch-flow/main.go:1141-1172 | Every eligible order in exactly one batch of one vendor with 1 to batchSize ids; vendors and ids ascending; as many batches as the sum of the rounded-up quotients. |
| `StressTools.OrderRing.Push` | services/api/cmd/stress/main.go:1092-1099 | Appends the id; when full, the oldest makes room. |
| `StressTools.OrderRing.Pop` | services/api/cmd/stress/main.go:1101-1108 | Removes and returns the newest id, if any. |
| `StressTools.OrderRing.Peek` | services/api/cmd/stress/main.go:1110-1115 | What Pop would return, changing nothing. |
| `StressTools.RingAnswersLikeStack` | services/api/cmd/stress/main.go:1086-1115 | Over every run of push, pop and peek each id the ring returns is the one the unbounded stack of the same steps returns, and all answers agree when no push meets a full ring. |
| `StressTools.Pick` | services/api/cmd/stress/main.go:569-582 | The loop returns the scenario in whose stretch the draw falls, and reaches the fallback exactly for a draw outside the total. |
| `StressTools.PicksOne` | services/api/cmd/stress/main.go:569-582 | A draw falls in one stretch only. |
| `StressTools.PickedByWeight` | services/api/cmd/stress/main.go:569-582 | Of the total draws each scenario is picked for exactly its weight. |
| `StressTools.Percentile` | services/api/cmd/lunch-flow/main.go:1127-1139 | The element at the nearest rank clamped into the list, zero for none. |
| `StressTools.PercentileMeans` | services/api/cmd/lunch-flow/main.go:1127-1139 | For 0 < p <= 1 at least a share p of the samples is at most the value and a share below p is less than it. |
| `Recommend.Score` | services/api/internal/menu/recommend.go:44-79 | The first k of the ranking, or all of it: from high to low score and low to high id, each chip that of a popular non-favourite, and every one of those when nothing is cut off. |
| `Recommend.StandsExactly` | services/api/internal/menu/recommend.go:44-65 | A chip has its item's id, name, price and vendor; its score is the popularity plus alpha times the affinity times the popularity; the familiar-vendor reason stands exactly for a positive affinity. |
| `Recommend.LikedVendorFirst` | services/api/internal/menu/recommend.go:37-79 | Of two equally and positively popular items, with alpha above zero, the one whose vendor has the larger affinity comes first. |
| `Recommend.RankedExactly` | services/api/internal/menu/recommend.go:44-79 | The ranking is strictly ordered and contains exactly one chip for each popular non-favourite and no other. |
| `Recommend.RankedInOrder` | services/api/internal/menu/recommend.go:66-74 | By score from high to low and, for equal scores, by id from low to high. |
| `Recommend.RankingUnique` | services/api/internal/menu/recommend.go:66-74 | A strict ranking is determined by its members. |
| `Recommend.RankedPermutationInvariant` | services/api/internal/menu/recommend.go:44-79 | Any order of the same items gives the same ranking. |
| `Recommend.RecommendChips` | services/api/internal/menu/home_service.go:306-368 | One page of the ranking with the offset of the next, under the effective limit. |
| `Recommend.PagesJoinToRanking` | services/api/internal/menu/home_service.go:306-368 | Following next from 0 ends and joins to the whole ranking, no gap, no overlap, though each call lists the items anew. |
| `Recommend.NormaliseAffinity` | services/api/internal/menu/home_service.go:386-402 | Weights that add up to one, or none when the raw ones add up to zero. |
| `Hubs.StepKeeps` | services/api/internal/order/board.go:38-87 | Every operation keeps: a channel is subscribed exactly while open, no vendor has an empty set, and what a subscriber received plus what is buffered is its vendor's publications in order, less those that met a full buffer of 16. |
| `Hubs.EveryInterleaving` | services/api/internal/order/board.go:38-87 | The same over every interleaving. |
| `Hubs.NoDropNoLoss` | services/api/internal/order/board.go:78-87 | A subscriber never offered an event on a full buffer gets everything. |
| `Hubs.UnsubscribeKeeps` | services/api/internal/order/board.go:48-61 | Unsubscribing twice is unsubscribing once. |
| `Hubs.BoardHub.Subscribe` | services/api/internal/order/board.go:38-62 | A new open channel in its vendor's set. |
| `Hubs.BoardHub.Unsubscribe` | services/api/internal/order/board.go:48-61 | Closes an open channel once and drops an emptied set; otherwise nothing. |
| `Hubs.BoardHub.Publish` | services/api/internal/order/board.go:78-87 | Sends to every subscriber of the vendor, none of which is closed, in whatever order the set is iterated. |
| `Hubs.MenuHub.Broadcast` | services/api/internal/order/board.go:129-138 | Afterwards every subscriber has one pending signal; a subscriber has one exactly while its data is out of date. |
| `Hubs.MenuHub.Receive` | services/api/internal/order/board.go:105-138 | After a receive a subscriber knows of every broadcast so far, signal or not: no refetch is lost. |
| `Hubs.MenuHub.Unsubscribe` | services/api/internal/order/board.go:110-117 | Closes the channel once. |
| `OnTimeRate.Compact` | services/api/internal/compliance/evaluator/ontime_rate.go:174-180 | The in-place compaction leaves exactly the events after the cutoff, in order, at the front: nothing unread is overwritten. |
| `OnTimeRate.Prune` | services/api/internal/compliance/evaluator/ontime_rate.go:173-184 | The stored window is never empty after an event. |
| `OnTimeRate.Evaluator.Handle` | services/api/internal/compliance/evaluator/ontime_rate.go:158-222 | Only the vendor's own window changes; a message without a vendor changes nothing. |
| `OnTimeRate.WindowIsFilter` | services/api/internal/compliance/evaluator/ontime_rate.go:158-184 | While the clock does not go backwards every vendor's stored window is, in order, its whole history after (its last event - window). |
| `OnTimeRate.AfterExactly` | services/api/internal/compliance/evaluator/ontime_rate.go:175-180 | Kept are exactly the events later than the cutoff; one at the cutoff is dropped. |
| `OnTimeRate.PickedUpCounts` | services/api/internal/compliance/evaluator/ontime_rate.go:185-191 | The count is the number of events picked up. |
| `OnTimeRate.OpensExactly` | services/api/internal/compliance/evaluator/ontime_rate.go:185-221 | An anomaly opens exactly when there are enough samples and the picked-up share is below the threshold. |
| `OnTimeRate.SeverityExactly` | services/api/internal/compliance/evaluator/ontime_rate.go:200-216 | It is about the vendor, tells the counts, and is high exactly when the share is below the high threshold. |
| `OnTimeRate.DefaultsOnTenSamples` | services/api/internal/compliance/evaluator/ontime_rate.go:52-67 | With the defaults, on ten samples: ten picked up opens nothing, nine is medium, fewer is high. |
| `PrepSheet.GroupOrdersByPlant` | services/api/internal/order/prep_sheet.go:63-86 | Plants in first-seen order, each with its own orders and its items' sums. |
| `PrepSheet.AssemblePrepSheet` | services/api/internal/order/prep_sheet.go:93-108 | Plants without repeats in first-seen order with exactly their orders; order counts add up to all orders and portion counts to the units of all lines. |
| `PrepSheet.OrderStandsOnce` | services/api/internal/order/prep_sheet.go:63-108 | An order stands in a section exactly when the section is its plant's. |
| `Grouping.FirstSeenInOrder` | services/api/internal/order/prep_sheet.go:63-86 | Plants and items stand in the order in which they are first seen. |
| `Vendors.CallKeepsSafe` | services/api/internal/vendors/service.go:66-143 | Every successful call keeps: only approved vendors have active operators, and no vendor has an email twice. |
| `Vendors.RunsAreSafe` | services/api/internal/vendors/service.go:66-319 | The same after any run of calls. |
| `Vendors.OnlyReinstatedByHand` | services/api/internal/vendors/service.go:238-319 | An individually suspended operator becomes active only through its own reinstatement or a creation with the same email; no call on the vendor does it. |
| `Vendors.IndividuallySuspendedStay` | services/api/internal/vendors/service.go:87-143 | Suspending and reinstating the vendor leaves individually suspended operators alone. |
| `Vendors.SuspendReinstateExactly` | services/api/internal/vendors/service.go:87-143 | Suspend then Reinstate restores every status exactly when no operator of the vendor was vendor-suspended before. |
| `Vendors.ApprovalLeavesOperatorsBehind` | services/api/internal/vendors/service.go:66-84 | Approving a suspended vendor leaves its operators vendor-suspended, and the next suspend and reinstate activates them. |
| `VendorService.Service.Approve` | services/api/internal/vendors/service.go:66-84 | Exactly for pending or suspended vendors; no other vendor and no operator changes, the plants are replaced, and safety is kept. |
| `VendorService.Service.Suspend` | services/api/internal/vendors/service.go:87-116 | Exactly for an approved vendor all of whose active operators the provider knows: they, and no others, become vendor-suspended; otherwise nothing local changes. |
| `VendorService.Service.Reinstate` | services/api/internal/vendors/service.go:119-143 | Exactly for a suspended vendor all of whose vendor-suspended operators the provider knows: they, and no others, become active. |
| `VendorService.Service.CreateOperator` | services/api/internal/vendors/service.go:238-281 | Exactly for an approved vendor, an email that is not blank and parses, and a name that is not blank: the account of the normalised email is active afterwards, every account of another vendor or email stays, and safety is kept. |
| `Vendors.NormalMeans` | services/api/internal/vendors/service.go:361-370 | The normal email is the email without its blank ends, letter by letter in small letters. |
| `Vendors.TrimMeans` | services/api/internal/vendors/service.go:361-362 | Trimming takes the blanks off both ends and nothing else. |
| `Vendors.NormalIdempotent` | services/api/internal/vendors/service.go:361-370 | Normalising a normalised email changes nothing, so a stored account is found again. |
| `VendorService.Service.SuspendOperator` | services/api/internal/vendors/service.go:283-298 | Exactly for an active account of the vendor known to the provider; no vendor and no other account changes, and safety is kept. |
| `VendorService.Service.ReinstateOperator` | services/api/internal/vendors/service.go:300-319 | Exactly for a suspended account, in either way, of an approved vendor; no vendor and no other account changes, and safety is kept. |
| `VendorRaces.UpdateExactly` | services/api/internal/vendors/service.go:87-116 | The services send their updates one by one after earlier reads: from a safe state each ends safe exactly when it arrives in time, an upsert or reinstatement under an approved vendor, a suspension mark with no active operator left. |
| `VendorRaces.InterleavedUpdatesExactly` | services/api/internal/vendors/service.go:66-319 | Over every interleaving of the updates of any callers: safe throughout exactly when each arrives in time. |
| `VendorRaces.CallsAreUpdates` | services/api/internal/vendors/service.go:87-143 | Suspend and Reinstate alone are their two updates in order; between those of Suspend the state is safe only without active operators. |
| `VendorRaces.CreationDuringSuspension` | services/api/internal/vendors/service.go:238-281 | A suspension between the read and the upsert of a creation leaves an active operator under a suspended vendor. |

## Left out

- SQL, NATS, HTTP, sessions, object storage, metrics and tracing; tables are sequences and maps in memory, and an order's id is
  its position.
- Time zones and calendars: instants are seconds, days are numbers, a day starts at UTC midnight; the next orderable day is not
  modelled.
- Rounding of floating point and the exponential behind the Gaussian weights: weights, scores, rates and thresholds are exact
  reals and the weights are any positive ones. A weight that underflows to zero is therefore outside `Apportion.LargestRemainder`.
- 64-bit overflow of amounts and counts: integers are unbounded.
- PayrollLedger.BuildSound: assumes the new period overlaps no other one; the service itself refuses only the identical period.
- Vendors.RunsAreSafe: calls one after the other; `VendorRaces.InterleavedUpdatesExactly` has the interleaved updates. Remote
  accounts changed before a later remote call fails are not modelled, nor is a failing provider in CreateOperator.
- Vendors.NormalIdempotent: trimming and lower-casing are those of ASCII; what the address parser accepts is a parameter.
- Refunds.RunKeepsRecords: calls one after the other; `LedgerRaces.CommitKeeps` has commits on earlier reads.
- LedgerRaces.CommitKeeps: what an earlier read guarantees (listed orders still settled, the entry found still listing the order)
  is its assumption, as those facts never change back.
- Stock.ApplyQuotaDelta: which error is reported when several deltas fail depends on the map's order and is not stated.
- Apportion.MerchantPickupMatrix: its weights are a parameter; how the code shifts the curve per row is not modelled.
- Assignment.SetupAndReload: plants and vendors come back in their setup order, as their codes and emails sort while there are
  fewer than a thousand of each.
- Interleaving.OrdersNameRows: supply rows are never deleted, as in the services.
- The cutoff sweeper and the no-show sweeper appear as one commit per order and as the serial sweep; their timers do not.
- Meal ratings, vendor profile and settings, plant windows, menu editing, favourites and reorder chips, exceptions of payroll runs,
  exports: single-branch facts.
- Names, notes, resolutions and reasons are not carried through the prep sheet, payroll and complaints; complaint texts are their
  lengths in bytes.
- Load generation, reports and number formatting of the two drivers beyond the functions named above.
