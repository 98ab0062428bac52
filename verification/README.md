# The money and stock kernel of the point of sale, verified

This project models what the back office of the point of sale does with money and stock, and proves
what it keeps over every run.

* **Settlement** (`Money`, `Entities`, `Pricing`, `Payments`, `Refunds`, `Drawer`, `Settlement`): orders are
  priced, edited, held, merged, settled with split tenders, refunded in three modes and voided; each step
  writes signed rows into a cash ledger per register session, whose sum the session caches and a close
  compares with the counted drawer. Money is integer cents, quantities are 1/10000, rates are 1/1000000, and
  a decimal typed by a client is an exact fraction rounded once by ROUND_HALF_UP of the General Decimal
  Arithmetic Specification. `Settlement` states each transaction as a function on the whole state;
  `Database` holds the services as they run, a class whose rows are reassigned inside one transaction, each
  method proved equal to its transaction (a rejected request leaves the state as it was). `RefundLaws`,
  `SettlementLaws` and `Conservation` prove the invariant of every run and what follows from it.
  `PricingAnswers`, `PaymentAnswers`, `RefundAnswers` and `TillAnswers` say what each request is answered and
  what it stores from the request and the rows alone, without the functions that compute it.
* **Inventory handoff** (`Outbox`, `OutboxLaws`, `OutboxDrain`, `Handoff`): the outbox rows, the delivery
  attempts of any number of workers, the network that fails before acceptance or loses the acknowledgement,
  the operators who requeue, unblock, archive and resolve, and the receiver that deduplicates by event id.
  `Outbox` is the protocol, `OutboxLaws` its exactly-once result over every interleaving, `OutboxDrain` the
  rows a worker ever delivers and the bound on draining the queue, `Handoff` the imperative table, worker and
  receiver. `OutboxAnswers` says what is stored, sent and recorded from lines, weathers and reply codes alone.
* **Both together** (`Kernel`): the settle and void routes, which commit an order and its outbox row in one
  transaction, and exactly-once stock in terms of the orders.
* **Smaller concurrent pieces**: register row locks (`RegisterLocks`), single-use approval grants
  (`Approvals`), the two rate limiters (`RateLimit`), the kitchen-display broadcaster (`Broadcast`) and the
  staff directory fed by payroll envelopes (`StaffSync`).

Four behaviours are kept as the code has them, and the theorems say what they lead to:

* voiding a settled order pays its whole cash tender out again, whatever was refunded before
  (`Conservation.VoidPaysTheTenderAgain`, exact in `Conservation.VoidBalancesExactly`, and seen in
  `Conservation.VoidLosesMoney`);
* a refund posted after a close changes the expected cash of the session and not its recorded variance
  (`Conservation.ClosedReconciliation`);
* refunds are tracked by tender type but capped per payment row, so an order settled in two rows of one type
  can get stuck. `RefundLaws.RefundCompleteness` gives the exact condition, and
  `Conservation.StuckOrderIsReachable` a run from an empty database that violates it;
* a reversal that waits for its sale still takes a place in the batch
  (`OutboxDrain.WaitingReversalsStarve`); `OutboxDrain.DeliveredExactly` says which rows are delivered at all,
  and `OutboxDrain.StarvationIsReachable` that a ready sale can wait for ever under any batch size.

`order_state_policy.py` also lists `refunded` as refundable, while `create_refund` accepts only paid and
folio-pending orders; the model follows `create_refund`.

## Model

| member | source | states |
|---|---|---|
| Money.RoundingIsUnique | backend/app/services/financial_precision.py:22-27 | quantizing by division is the one integer nearest to the fraction, ties away from zero, in both directions |
| Money.RoundAtMost | backend/app/services/financial_precision.py:22-23 | rounding never lifts an amount above a whole number of cents that bounded it |
| Money.RoundSplit | backend/app/services/financial_precision.py:22-23 | rounding a sum and summing the roundings differ by at most one unit |
| Money.CentsNearest | backend/app/services/financial_precision.py:22-23 | what is typed is kept as the nearest cent and no other |
| Money.QuantityNearest | backend/app/services/financial_precision.py:26-27 | a quantity is kept as the nearest 1/10000 and no other |
| Money.WholeCentsExactly | backend/app/services/payment_control_policy.py:43-52 | an amount passes as whole cents exactly when some number of cents equals it, which is then its value |
| Pricing.SumAccepted | backend/app/services/pos_service.py:1421-1424 | the dictionary holds, for every item, the quantity already accepted on the order |
| Pricing.SumRequested | backend/app/services/pos_service.py:1426-1435 | succeeds exactly when every quantity is positive before and after rounding; then holds the requested total of every item |
| Pricing.CheckStock | backend/app/services/pos_service.py:1437-1454 | passes exactly when every item exists and no inactive or sold-out item is requested beyond what was accepted |
| Pricing.PriceLine | backend/app/services/pos_service.py:1485-1524 | a line is priced exactly when rates, price, discount and gross are valid, and then line total is gross less discount with 0 <= discount <= gross |
| Pricing.PlanLines | backend/app/services/pos_service.py:1456-1563 | the pricing loop accepts exactly the priceable lists and its running sums are the order's totals |
| Pricing.PriceLines | backend/app/services/pos_service.py:1413-1567 | a replacement list is accepted exactly when every line is priceable and stocked; the lines and totals are those of the specification |
| Pricing.PriceMerged | backend/app/services/pos_service.py:1918-1943 | stored lines are priced again exactly when each item still exists with valid price and rates and each line is valid; the totals are those of the whole list |
| Pricing.PricingLaw | backend/app/services/pos_service.py:1520-1563 | discount within subtotal, tax and service within the net price, and the stored total within a cent of its four stored parts |
| Pricing.AcceptedListLaw | backend/app/services/pos_service.py:1413-1567 | the same for every accepted request, with each line total equal to gross less discount |
| Pricing.SoldOutNeverGrows | backend/app/services/pos_service.py:1413-1454 | an accepted edit never increases the quantity of an item that is inactive or sold out |
| Pricing.TotalMayMissItsPartsByOneCent | backend/app/services/pos_service.py:1558-1562 | the one-cent tolerance is needed: a priced order whose total differs from its stored parts |
| Pricing.MergeConservation | backend/app/services/pos_service.py:1914-1943 | pricing two orders together adds subtotals and discounts exactly and tax, service and total to within a cent |
| PricingAnswers.PricedExactly | backend/app/services/pos_service.py:1485-1528 | a request is priced if and only if its item exists and the line it becomes is permitted: quantity the nearest 1/10000 of what was typed, price and product id the catalog's, discount and gross the nearest cents; there is only one such line |
| PricingAnswers.ListAcceptedExactly | backend/app/services/pos_service.py:1413-1567 | a list is accepted if and only if every request is so priced and no inactive or unavailable item grows |
| PricingAnswers.AcceptedAnswer | backend/app/services/pos_service.py:1520-1563 | the lines and totals an accepted list is stored with, from the request and the catalog alone |
| PricingAnswers.TotalsAreNearest | backend/app/services/pos_service.py:1558-1563 | tax is the nearest cent of the sum of net prices times tax rates, service charge of net prices times service rates, and the total of both with the net prices, for priced and for merged lists |
| Payments.ValidatePaymentControl | backend/app/services/payment_control_policy.py:55-105 | accepts a checkout exactly when the order is active, every tender line is valid, references do not repeat within a tender and the applied sum is the order total |
| Payments.ChangeIsExact | backend/app/services/pos_service.py:2022-2029 | cash received less change given is the applied amount |
| Payments.RowsTotal | backend/app/services/pos_service.py:2031-2046 | the stored payment rows sum to the checkout's applied total |
| PaymentAnswers.CheckoutAnswer | backend/app/services/payment_control_policy.py:55-105 | a checkout is accepted if and only if the order is still being worked on with something to pay, the tender lines apply whole cents that add up to its total, cash is covered and other amounts match, references are given and not repeated, and a room charge names a room or booking |
| PaymentAnswers.RowAnswer | backend/app/services/pos_service.py:2021-2046 | the row a tender line is stored as: what it applies, what was received or as much where nothing was typed, and change for cash only |
| PaymentAnswers.PostableAnswer | backend/app/services/pos_service.py:2016-2049 | what stops a valid tender line: a missing account, or for a room charge an unavailable booking, an unknown service or no room |
| Refunds.GatherHistory | backend/app/services/pos_service.py:2187-2199 | the two dictionaries hold the refunded quantity of every line and the refunded money of every tender type over the whole history |
| Refunds.PlanFull | backend/app/services/refund_domain.py:24-55 | the full plan is the remainder of every line plus one adjustment that makes it sum to the balance |
| Refunds.TakeClaim | backend/app/services/refund_domain.py:60-86 | a claim is accepted exactly when its line exists and its quantity is still unrefunded, counting the same request; the running dictionary then includes it |
| Refunds.CollectClaims | backend/app/services/refund_domain.py:56-88 | all claims or none, with the amount their sum |
| Refunds.PrepareRefundLines | backend/app/services/refund_domain.py:17-112 | each mode gives the specified plan or a rejection, including the final checks against zero and the balance |
| Refunds.AllocateTenders | backend/app/services/refund_domain.py:115-158 | the greedy loop equals the waterfall over the payment rows, and rejects exactly when the rows cannot hold the amount or a reached room-charge row has no posting |
| RefundLaws.PlanLaw | backend/app/services/refund_domain.py:17-112 | in every mode the plan's lines sum to its amount, within the balance, and no line gives back more than its unrefunded quantity |
| RefundLaws.ShareIsNearest | backend/app/services/refund_domain.py:74-86 | a share is the exact proportion of money and discount rounded once; the whole line gives back exactly its amounts |
| RefundLaws.AllocationLaw | backend/app/services/refund_domain.py:115-158 | an accepted allocation pays exactly the amount and overdraws no tender type |
| RefundLaws.GreedyInRowOrder | backend/app/services/refund_domain.py:121-155 | a payment row receives a share only when every earlier row has given all it could |
| RefundLaws.RefundSafety | backend/app/services/pos_service.py:2166-2322 | every accepted refund keeps the history sound: balanced three ways, within the total, within each tender type, within each line |
| RefundLaws.ProportionalDrift | backend/app/services/refund_domain.py:59-88 | after n refund lines of one order line the money refunded is within n/2 cents of the exact share of the quantity |
| RefundLaws.CapacityIsRemaining | backend/app/services/refund_domain.py:121-129 | the payment rows can hold the whole balance exactly when no tender type is both split over rows and partly refunded |
| RefundLaws.RefundCompleteness | backend/app/services/refund_domain.py:89-157 | every amount up to the balance is refundable if and only if no tender type is both split over rows and partly refunded |
| RefundLaws.FullRefundCompletes | backend/app/services/refund_domain.py:24-55 | a full refund is accepted under the same condition, brings refunds to the total, and every later request is rejected |
| RefundLaws.FullTakesEveryLine | backend/app/services/refund_domain.py:26-43 | a full refund from any history leaves no quantity of any line unrefunded |
| RefundLaws.LinesAcceptedExactly | backend/app/services/refund_domain.py:56-88 | a line refund is accepted if and only if every claim names an order line and a positive quantity, the claims of each line fit into what is left of it, and the sum of their shares is positive and fits into the payment rows; it pays that sum |
| RefundLaws.DistinctTendersComplete | backend/app/services/refund_domain.py:121-129 | with pairwise distinct tender types the completeness condition always holds |
| RefundLaws.SplitCashGetsStuck | backend/app/services/refund_domain.py:121-157 | an order settled in two equal cash rows: refund one half and no further request of any kind is accepted |
| RefundAnswers.LinesAnswer | backend/app/services/refund_domain.py:56-88 | a line refund is accepted if and only if its claims become refund lines, each the nearest 1/10000 of the quantity typed and the nearest cents of that share, that fit into their order lines and the payment rows; those are the lines of the refund |
| RefundAnswers.AmountAnswer | backend/app/services/refund_domain.py:89-103 | an amount refund is accepted if and only if the nearest cents of what was typed are positive and fit into the payment rows; it is one line of that amount |
| RefundAnswers.FullAnswer | backend/app/services/refund_domain.py:44-55 | a full refund pays the total less the sum of earlier refunds, with at most one adjustment line, at the end |
| RefundAnswers.RefusedAnswer | backend/app/services/pos_service.py:2177-2185 | no refund of an order that is not paid or folio-pending or has nothing left, in an unknown mode, or by lines without lines |
| RefundAnswers.CapacityIsSum | backend/app/services/refund_domain.py:121-129 | what the rows can hold is the sum, row by row, of the applied amount above all earlier refunds of its tender type |
| RefundAnswers.RoomChargesLast | backend/app/services/refund_domain.py:132-151 | room charges are reversed after ordinary tenders, and a room charge that has to give back without a posting stops the refund |
| Drawer.InLessOut | backend/app/services/pos_service.py:692-700 | the two direction sums of the query differ by the fold of the signed movements |
| Drawer.CashRowsLaw | backend/app/services/pos_service.py:2079-2096 | the cash rows of a sale or void carry exactly the order's cash tender, signed |
| Drawer.RefundRowsLaw | backend/app/services/pos_service.py:2346-2363 | the cash rows of a refund carry exactly its cash part, paid out |
| SettlementLaws.StepKeeps | backend/app/services/pos_service.py:1191-2646 | every transaction keeps the invariant of orders, ledger, drawers and request ids |
| SettlementLaws.PayKeeps | backend/app/services/pos_service.py:1963-2133 | settling establishes what refunds rely on: positive rows summing to the total, postings present, drawer updated |
| SettlementLaws.RefundKeeps | backend/app/services/pos_service.py:2166-2389 | a refund keeps history, order cash and the cached drawer balance together, on an open or closed session |
| SettlementLaws.VoidKeeps | backend/app/services/pos_service.py:2392-2444 | a void keeps order cash and the cached drawer balance together |
| SettlementLaws.EntryKeeps | backend/app/services/pos_service.py:2491-2646 | a manual entry or its replay keeps the drawers and the uniqueness of request ids |
| SettlementLaws.MergeKeeps | backend/app/services/pos_service.py:1885-1960 | a merge keeps every line in one order only, with ids distinct across all orders |
| SettlementLaws.OpenKeeps | backend/app/services/pos_service.py:1191-1235 | opening keeps the invariant; the new drawer's balance starts at its float |
| SettlementLaws.CloseKeeps | backend/app/services/pos_service.py:1266-1327 | closing keeps the invariant; the variance is recorded against the ledger as it stands |
| SettlementLaws.ReopenKeeps | backend/app/services/pos_service.py:1330-1367 | reopening keeps the invariant, one open session per register included |
| TillAnswers.PolicyAnswer | backend/app/services/order_state_policy.py:9-25 | which states allow which action |
| TillAnswers.OpenAnswer | backend/app/services/pos_service.py:1191-1235 | an open succeeds exactly on a mapped, free register with a float that is not negative; the drawer holds the nearest cents of it, brought in by one movement unless it is nothing |
| TillAnswers.CloseAnswer | backend/app/services/pos_service.py:1266-1327 | a close succeeds exactly on an open, mapped session with a count that is not negative, kept to the nearest cent; the variance is the count less what the movements say |
| TillAnswers.ReopenAnswer | backend/app/services/pos_service.py:1330-1367 | a reopen succeeds exactly with approval on a closed session of a free register; count and variance are cleared, the balance stays |
| TillAnswers.CreateAnswer | backend/app/services/pos_service.py:1370-1410 | exactly when an order is created, and every field it is created with |
| TillAnswers.EditAnswer | backend/app/services/pos_service.py:1570-1591 | exactly when an edit is accepted; it changes lines and totals and nothing else |
| TillAnswers.StatusAnswer | backend/app/services/pos_service.py:1833-1848 | holding and resuming change the status and nothing else, from exactly the listed states |
| TillAnswers.MergeAnswer | backend/app/services/pos_service.py:1885-1960 | exactly when a merge is accepted; the target has its own lines before the source's, and totals from the rates of those lines |
| TillAnswers.PayAccepted | backend/app/services/pos_service.py:1963-2096 | exactly when a payment is accepted, cash needing an open drawer |
| TillAnswers.PayAnswer | backend/app/services/pos_service.py:2007-2057 | the rows are the tender lines' in order, the order is folio-pending if and only if one of them is a room charge, and nothing else changes |
| TillAnswers.VoidAnswer | backend/app/services/pos_service.py:2392-2444 | exactly when a void is accepted; only the status changes |
| TillAnswers.VoidCashAnswer | backend/app/services/pos_service.py:2418-2436 | what the drawer pays out for a void is the order's cash tender |
| TillAnswers.RefundAnswer | backend/app/services/pos_service.py:2166-2389 | a refund is accepted exactly with approval and a decision, which is appended; nothing else of any order changes |
| TillAnswers.AllowedAnswer | backend/app/services/payment_control_policy.py:108-133 | exactly which manual entries may be made: whole cents, the direction of the type, note, reference and approval where required, accounts at both ends of a transfer |
| TillAnswers.EntryAnswer | backend/app/services/pos_service.py:2517-2589 | every field of the row a manual entry writes |
| TillAnswers.EnterAnswer | backend/app/services/pos_service.py:2531-2596 | exactly when an entry is accepted; a new one writes its row and moves the drawer by its signed cents, a known one writes nothing |
| Conservation.TotalsAlwaysAgree | backend/app/services/pos_service.py:1520-1563 | in every reachable state each line total is gross less discount and each stored total agrees with its stored parts |
| Conservation.OrderCashIdentity | backend/app/services/pos_service.py:2079-2096 | in every run the signed movements of an order sum to its cash tender, unless voided, less its cash refunds |
| Conservation.CachedBalance | backend/app/services/pos_service.py:688-708 | in every run the cached expected cash is the fold of the session's signed movements |
| Conservation.VoidPaysTheTenderAgain | backend/app/services/pos_service.py:2418-2436 | as coded: a void lowers the order's cash by its whole cash tender, so earlier cash refunds are lost to the drawer |
| Conservation.VoidBalancesExactly | backend/app/services/pos_service.py:2418-2436 | after a void the order's cash is zero if and only if none of it was refunded in cash before, and never positive |
| Conservation.VoidLosesMoney | backend/app/services/pos_service.py:2392-2444 | a run from an empty database after which a voided order is 1.00 short |
| Conservation.OnlyRefundOrVoid | backend/app/services/order_state_policy.py:9-25 | once an order leaves the active states, only an approved refund or void that names it changes it, and only by adding that refund or that status |
| Conservation.FrozenForever | backend/app/services/pos_service.py:2177-2178 | lines, totals and payments are frozen for the rest of every run; refunds are only appended |
| Conservation.ClosedReconciliation | backend/app/services/pos_service.py:1274-1296 | counted cash less expected cash is the recorded variance plus the refunds posted since the close, and nothing else can be posted |
| Conservation.RefundSafetyOfRuns | backend/app/services/pos_service.py:2182-2229 | in every run each refund balances three ways, refunds stay within the total, and within what each tender type was charged |
| Conservation.ProportionalRefunds | backend/app/services/refund_domain.py:59-88 | in every run the refunded money of a line is within half a cent per refund line of the exact share |
| Conservation.RefundCompletenessOfRuns | backend/app/services/refund_domain.py:115-158 | in every run a settled order accepts every amount up to its balance if and only if the tender condition holds; then a full refund empties it for good |
| Conservation.StuckOrderIsReachable | backend/app/services/refund_domain.py:121-157 | a run from an empty database after which 1.00 of an order can never be refunded |
| Conservation.MergeConserves | backend/app/services/pos_service.py:1885-1960 | every source line moves to the target exactly once, subtotals and discounts add exactly, the total to within a cent under unchanged rates, no other order changes |
| Conservation.OneCatalog | backend/app/services/pos_service.py:1413-1567 | in every run under one catalog each unmerged order's totals are those the catalog gives its lines |
| Conservation.MergeTotals | backend/app/services/pos_service.py:1914-1951 | in every run under one catalog a merge changes the two orders' total by at most one cent |
| Conservation.OneCatalogTotals | backend/app/services/pos_service.py:1558-1563 | in every run under one catalog, stored tax, service charge and total are the nearest cents of what the order's lines add up to |
| Conservation.FolioExactly | backend/app/services/pos_service.py:2053-2057 | in every reachable state a settled order is folio-pending if and only if one of its payment rows is a room charge, and its paid amount is what the others applied |
| Conservation.NewRequests | backend/app/services/pos_service.py:2531-2568 | only an accepted manual entry brings a request id into the ledger |
| Conservation.RetriesAreHarmless | backend/app/services/pos_service.py:2448-2488 | every run ends in the state of the run that keeps only the first accepted entry of each request id |
| Conservation.ReplayForever | backend/app/services/pos_service.py:2536-2566 | a retry of an accepted entry in any later state, open or closed, under any mapping of the registers, writes nothing and is accepted exactly when it is still allowed and resolves to the same accounts |
| Conservation.ReplayWithOwnAccount | backend/app/services/pos_service.py:2517-2566 | an accepted entry that names its account and no destination register is accepted again in any later state, whatever the registers are mapped to |
| Database.Tables.ComputeSessionExpectedCash | backend/app/services/pos_service.py:688-708 | caches the difference of the session's in and out sums and changes nothing else |
| Database.Tables.WriteMovement | backend/app/services/pos_service.py:2563-2596 | a closed drawer refuses everything but an order's payouts; otherwise the row is appended and the balance refreshed |
| Database.Tables.OpenRegisterSession | backend/app/services/pos_service.py:1191-1235 | opens exactly when the register is mapped and has no open session, with the float as first movement |
| Database.Tables.CloseRegisterSession | backend/app/services/pos_service.py:1266-1327 | closes an open, mapped session with the variance against the recomputed balance; a negative count is rolled back |
| Database.Tables.ReopenRegisterSession | backend/app/services/pos_service.py:1330-1367 | reopens exactly a closed session whose register has no open one, with a manager's approval, and clears count and variance |
| Database.Tables.CreateOrder | backend/app/services/pos_service.py:1370-1410 | a draft order is stored exactly when its session is open and current, its lines are acceptable and any discount is approved |
| Database.Tables.UpdateOrder | backend/app/services/pos_service.py:1570-1591 | lines and totals of an editable order are replaced together or not at all; an edit without lines changes neither, and a discount needs approval either way |
| Database.Tables.SetOrderStatus | backend/app/services/pos_service.py:1833-1848 | hold and resume only, from the states the policy lists |
| Database.Tables.MergeOrderTable | backend/app/services/pos_service.py:1885-1960 | moves the source's lines, prices the target again and marks the source merged, or rolls everything back |
| Database.Tables.BuildPayments | backend/app/services/pos_service.py:2007-2057 | the tender loop yields the payment rows and the immediate and folio totals, or fails exactly when an immediate tender has no account or a room charge has an unavailable booking, an unknown service type or no room |
| Database.Tables.PayOrder | backend/app/services/pos_service.py:1963-2133 | settles exactly under the checkout rules and posts the cash rows; a closed drawer rolls it back |
| Database.Tables.DecideRefund | backend/app/services/pos_service.py:2177-2207 | history, plan and allocation together decide the refund of every request |
| Database.Tables.CreateRefund | backend/app/services/pos_service.py:2166-2389 | with approval, appends the decided refund and pays its cash part out of the drawer, open or closed |
| Database.Tables.VoidOrder | backend/app/services/pos_service.py:2392-2444 | with approval, voids from the states the policy lists and pays every cash row out |
| Database.Tables.FindStored | backend/app/services/pos_service.py:2531-2538 | finds the stored movement of a request id, or none |
| Database.Tables.CreateCashMovement | backend/app/services/pos_service.py:2491-2646 | an equal stored entry is a replay, a different one a conflict, and a new one needs an open session |
| OutboxLaws.ExactlyOnceStock | backend/scripts/pass16_inventory_replay_stub.py:102-118 | over every interleaving each product's delta is minus the lines of the orders whose sale is accepted and whose reversal is not, hence never positive |
| OutboxLaws.ReversalFollowsSale | backend/app/services/inventory_integration.py:200-215 | a reversal is accepted only after its sale and with identical lines |
| OutboxLaws.NeverConflicts | backend/app/services/pos_service.py:1152-1165 | the receiver never sees two bodies under one event id and never refuses a sent body |
| OutboxLaws.SyncedMeansAccepted | backend/app/services/inventory_integration.py:292-300 | a row is marked synced only when its event was accepted |
| OutboxLaws.EventsImmutable | backend/app/services/pos_service.py:1152-1165 | no step rewrites a stored event, and accepted events stay accepted |
| OutboxLaws.SyncedStockIsSold | backend/app/api/orders.py:138-229 | once every row is synced the receiver's stock is minus the stored sale lines of the orders whose stage is settled; `Kernel.SyncedStockIsSettled` says it of the orders themselves |
| OutboxLaws.ReceiveKeeps | backend/scripts/pass16_inventory_replay_stub.py:102-118 | one request of a stored row moves stock exactly when the event is new, and a success means it is recorded |
| OutboxLaws.SaleIsAccepted | backend/app/services/inventory_integration.py:200-215 | waiting for the stored sale to be synced is enough for the receiver to have it |
| OutboxLaws.NextKeeps | backend/app/services/sync_service.py:915-1089 | every step, operator actions included, keeps the protocol invariant |
| OutboxDrain.SyncRunIsATrace | backend/app/services/inventory_integration.py:172-318 | every run of the worker, on any network, is a trace of the protocol |
| OutboxDrain.SyncRunStaysReachable | backend/app/services/inventory_integration.py:172-318 | a run from a reachable state ends in a reachable state, so the exactly-once results hold after it |
| OutboxLaws.QueueLaw | backend/app/services/inventory_integration.py:174-188 | the queue holds exactly the selectable rows, in increasing id order |
| OutboxDrain.SunnyRun | backend/app/services/inventory_integration.py:188-300 | with well-formed due rows and a healthy receiver, a run syncs exactly the rows of its batch that are not stuck, changes nothing else, and so serves the queue once |
| OutboxDrain.LiveRowBound | backend/app/services/inventory_integration.py:172-318 | a row with n live rows before it is synced after k runs as soon as k times the batch places not taken by stuck rows before it exceeds n |
| OutboxDrain.DeliveredExactly | backend/app/services/inventory_integration.py:172-215 | for every batch size, a queued row is eventually synced if and only if it is not stuck and fewer stuck rows precede it than a batch holds |
| OutboxDrain.DrainBound | backend/app/services/inventory_integration.py:172-318 | n queued rows are all synced after k runs as soon as k times the batch size reaches n, and no other row changes |
| OutboxDrain.DrainsExactlyWhenSalesAlive | backend/app/services/inventory_integration.py:205-215 | enough runs drain the queue if and only if no queued reversal waits for a blocked, archived or resolved sale |
| OutboxDrain.StuckForever | backend/app/services/inventory_integration.py:213-215 | a reversal whose sale is blocked, archived or resolved stays queued, and is not accepted, through any runs, with any limits, settings, clocks and networks |
| OutboxDrain.WaitingReversalsStarve | backend/app/services/inventory_integration.py:188-215 | as coded, for every limit: when the whole batch is stuck, no number of runs changes anything |
| OutboxDrain.StarvationIsReachable | backend/app/services/inventory_integration.py:188-215 | for every limit there is a reachable state with a well-formed, due sale that no number of runs ever delivers |
| OutboxAnswers.RefusalAnswer | backend/scripts/pass16_inventory_replay_stub.py:77-109 | which requests the receiver refuses or misses, with which answer, changing nothing |
| OutboxAnswers.AcceptanceAnswer | backend/scripts/pass16_inventory_replay_stub.py:102-118 | an accepted event is recorded once, moves every product by its signed quantities when it is new, and is answered 201, 200, 503 or not at all |
| OutboxAnswers.MappedAnswer | backend/app/services/inventory_integration.py:66-88 | lines with a product go out in order with their own product and quantity, and the others are counted |
| OutboxAnswers.EnqueueAnswer | backend/app/services/inventory_integration.py:105-143 | exactly when an event is stored, and as which row |
| OutboxAnswers.RouteAnswer | backend/app/api/orders.py:138-229 | each order is settled and cancelled at most once, in that order, and only a settled one gets a reversal |
| OutboxAnswers.BatchSizeAnswer | backend/app/services/inventory_integration.py:188 | 25 rows by default, at least one and at most 500 |
| OutboxAnswers.QueueAnswer | backend/app/services/inventory_integration.py:174-188 | exactly which rows are in line |
| OutboxAnswers.WeatherAnswer | backend/app/services/inventory_integration.py:280-308 | an attempt acknowledges its row when the exchange is healthy; any other weather reschedules it with one more retry, due two minutes per retry later and thirty at most |
| OutboxAnswers.UnsentAnswer | backend/app/services/inventory_integration.py:192-271 | rows that are not sent are suppressed while disabled, left alone while waiting, and stopped when they cannot be sent |
| OutboxAnswers.CodeAnswer | backend/app/services/inventory_integration.py:287-308 | 200 to 299 acknowledges; no answer, 408, 425, 429 or 500 upwards reschedules; any other code stops the row |
| OutboxAnswers.RunNeverStops | backend/app/services/inventory_integration.py:172-318 | no run of a configured worker, from any reachable state and under any weather, stops a row that can be sent |
| OutboxAnswers.RunAnswer | backend/app/services/inventory_integration.py:172-318 | in a whole run every sendable row of the batch whose sale is acknowledged is acknowledged or rescheduled by its own weather |
| OutboxAnswers.OperatorAnswer | backend/app/services/sync_service.py:915-1089 | what each operator action requires and changes |
| Handoff.InventoryReceiver.Post | backend/scripts/pass16_inventory_replay_stub.py:58-118 | answers and state of one request equal the receiver of the protocol: refusal, failure, conflict, duplicate, new |
| Handoff.SumDeltas | backend/scripts/pass16_inventory_replay_stub.py:91-101 | sums the signed quantities by product, or refuses when one is not positive |
| Handoff.Apply | backend/scripts/pass16_inventory_replay_stub.py:111-114 | adds each product's delta to the stock exactly once |
| Handoff.OutboxTable.BuildInventoryEvent | backend/app/services/inventory_integration.py:59-102 | splits the lines into mapped and unmapped, or fails when a quantity is not positive |
| Handoff.OutboxTable.EnqueueInventoryEvent | backend/app/services/inventory_integration.py:105-143 | stores a new event, a reversal with the stored sale's lines, and never rewrites one that exists |
| Handoff.OutboxTable.SettleOrder | backend/app/api/orders.py:145 | the outbox half of settling: the stage and the sale row of the given lines are stored together; `Kernel.Routes.SettleOrder` is the whole route |
| Handoff.OutboxTable.CancelOrder | backend/app/api/orders.py:205-206 | the outbox half of voiding: a settled order gets its reversal row, an unpaid one none; `Kernel.Routes.CancelOrder` is the whole route |
| Handoff.OutboxTable.SelectBatch | backend/app/services/inventory_integration.py:173-188 | selects the first due queued rows by id, between one and 500 |
| Handoff.OutboxTable.SyncOne | backend/app/services/inventory_integration.py:191-308 | one selected row is suppressed, skipped, blocked, retried with backoff or synced as the protocol says; the outcome tells which, and no other row changes |
| Handoff.OutboxTable.RunInventoryOutboxSync | backend/app/services/inventory_integration.py:172-318 | a run equals the specified run, and its counters are how many rows of the batch were synced, retried, blocked and skipped |
| Handoff.OutboxTable.RetryOutboxEvent | backend/app/services/sync_service.py:915-927 | requeues any row that is not synced and runs the worker on it alone |
| Handoff.OutboxTable.UnblockOutboxEvent | backend/app/services/sync_service.py:1043-1061 | requeues a blocked, failed or retrying row, due now |
| Handoff.OutboxTable.ArchiveOutboxEvent | backend/app/services/sync_service.py:1064-1075 | archives any row that is not synced |
| Handoff.OutboxTable.ResolveOutboxEvent | backend/app/services/sync_service.py:1078-1089 | resolves a blocked, failed or retrying row |
| Kernel.Routes.Serialize | backend/app/services/inventory_integration.py:66-88 | the lines handed over are the order's own, each under its item's stock code or, failing that, the product id stored with the line |
| Kernel.SerializedLine | backend/app/services/inventory_integration.py:69-82 | the k-th line handed over has the k-th quantity, and the item's stock code or else the product id stored with the line |
| Kernel.Routes.SettleOrder | backend/app/api/orders.py:138-167 | the payment of an order and the sale row of that order's lines commit together or not at all |
| Kernel.Routes.CancelOrder | backend/app/api/orders.py:190-228 | the void of an order and, if it was settled, its reversal row commit together or not at all |
| Kernel.EventAnswer | backend/app/api/orders.py:138-229 | what each event does to the till and the outbox: a route commits both halves or neither |
| Kernel.SettleNeverBlocked | backend/app/api/orders.py:144-145 | in every reachable state the settle route succeeds exactly when the payment does |
| Kernel.CancelNeverBlocked | backend/app/api/orders.py:195-206 | in every reachable state the void route succeeds exactly when the void does |
| Kernel.EventKeeps | backend/app/api/orders.py:138-229 | every transaction and delivery step keeps order status and outbox stage together, and each stored sale equal to its order's lines |
| Kernel.StockFollowsOrders | backend/scripts/pass16_inventory_replay_stub.py:102-118 | in every run of till and handoff together, each product's delta is minus its quantity on the lines of the orders whose sale is accepted and whose reversal is not |
| Kernel.SyncedStockIsSettled | backend/app/services/inventory_integration.py:31-42 | once every row is synced, each product's stock is down by exactly its quantity on the paid and folio-pending orders; money refunds leave it alone |
| Kernel.SettledIsMapped | backend/app/api/orders.py:144-145 | every settled order has the stock codes it was settled under, so none is left out of the sums |
| RegisterLocks.OneOpenPerRegister | backend/app/services/pos_service.py:1330-1352 | in every interleaving of opens, reopens and closes each register has at most one open session, from the register lock alone |
| RegisterLocks.OpenAlone | backend/app/services/pos_service.py:1191-1199 | with its register free, an open succeeds exactly when the register has no open session |
| RegisterLocks.ReopenAlone | backend/app/services/pos_service.py:1330-1352 | undisturbed, a reopen succeeds exactly when its session is closed and the register has no other open one |
| RegisterLocks.CloseAlone | backend/app/services/pos_service.py:1266-1271 | a close takes no register lock and succeeds exactly when its session is open |
| Approvals.SingleUse | backend/app/services/approval_service.py:301-365 | committed actions and consumed grants match one to one, each grant for that very requester, type, entity and payload and unexpired when checked |
| Approvals.OnlyApprovedIsConsumed | backend/app/services/approval_service.py:335-341 | a grant becomes consumed only from approved, by the action holding it, or as a manager's own request |
| Approvals.FinalIsFinal | backend/app/services/approval_service.py:219-265 | no step edits what a grant is for or moves it out of consumed, rejected or expired |
| Approvals.StatusIsFinal | backend/app/services/approval_service.py:219-365 | a final status stays for the rest of every run |
| Approvals.GuardedTrace | backend/app/services/approval_service.py:301-365 | check, conditional update and commit in a row spend the grant as one transaction does |
| Approvals.SelfTrace | backend/app/services/approval_guard.py:35-57 | a manager's own action leaves a grant of two minutes that was consumed from the start; without authority it leaves nothing |
| Approvals.TtlAnswer | backend/app/services/approval_service.py:185 | two minutes by default, at least 15 seconds and at most ten minutes |
| Approvals.RequestAnswer | backend/app/services/approval_service.py:179-211 | a pending grant exactly for one of the eight protected actions and an active user |
| Approvals.DecisionAnswer | backend/app/services/approval_service.py:219-265 | approving and rejecting act exactly on a pending grant with authority; approving too late expires it |
| Approvals.SpendAnswer | backend/app/services/approval_service.py:313-339 | a grant is spent exactly for the same requester, action, type, entity and payload, approved, in time and with authority |
| Approvals.GrantTable.RequestApproval | backend/app/services/approval_service.py:167-216 | exactly for a known action type and an active requester, a pending grant with its lifetime clamped to 15 to 600 seconds |
| Approvals.GrantTable.ApproveGrant | backend/app/services/approval_service.py:219-244 | approves exactly a pending, unexpired grant with authority; an expired one is marked and refused |
| Approvals.GrantTable.RejectGrant | backend/app/services/approval_service.py:247-265 | rejects exactly a pending grant with authority |
| Approvals.GrantTable.ConsumeApprovalGrant | backend/app/services/approval_service.py:301-365 | consumes exactly an approved, unexpired grant for the same claim whose approver still has authority |
| Approvals.GrantTable.ConsumeProtectedApproval | backend/app/services/approval_guard.py:60-113 | spends the named grant, or records, approves and spends a manager's own of a known type in one transaction |
| RateLimit.MemoryLimiter.Enforce | backend/app/core/rate_limit.py:56-63 | pops the expired times, accepts while fewer than the limit remain, and keeps other keys untouched |
| RateLimit.DequeRefinesWindow | backend/app/core/rate_limit.py:56-63 | the deque accepts a request exactly when the window ending now holds fewer than the limit of accepted ones |
| RateLimit.WindowBound | backend/app/core/rate_limit.py:56-63 | every window of the configured length, wherever it ends, holds at most the limit |
| RateLimit.RedisLimiter.Enforce | backend/app/core/rate_limit.py:66-82 | counts the request in its window's counter, which expires five seconds after a full window |
| RateLimit.BucketBound | backend/app/core/rate_limit.py:71-82 | a counter outlives its window, so no fixed window accepts more than the limit |
| RateLimit.FixedWindowBound | backend/app/core/rate_limit.py:71-82 | any interval of the window's length holds at most twice the limit |
| RateLimit.FixedWindowBoundIsTight | backend/app/core/rate_limit.py:71-82 | for every limit, two full bursts at the border of two windows are all accepted: twice the limit in one window's length |
| Broadcast.GapFree | backend/app/services/kds_stream.py:16-48 | in every run each queue holds a contiguous run of its channel's publications from its subscription on, all of it while it listens |
| Broadcast.FullAnswer | backend/app/services/kds_stream.py:17 | a queue is full when exactly one hundred messages wait in it |
| Broadcast.QueueAnswer | backend/app/services/kds_stream.py:16-20 | subscribing adds one empty listening queue and taking removes the oldest waiting message of one; nothing else is touched |
| Broadcast.OneCopyPerEvent | backend/app/services/kds_stream.py:62-70 | an event reaches a listening, addressed queue with room exactly once and no other; only an addressed queue that is full stops listening |
| Broadcast.StopsOnlyWhenSilenced | backend/app/services/kds_stream.py:16-48 | over any further operations a queue still listens, with everything published since its subscription, if and only if it never unsubscribed and was never addressed while full |
| Broadcast.DroppedStaysSilent | backend/app/services/kds_stream.py:36-48 | a queue dropped or unsubscribed receives nothing for the rest of the run |
| Broadcast.Broadcaster.SubscribeTo | backend/app/services/kds_stream.py:16-20 | a new empty queue listens from here on |
| Broadcast.Broadcaster.UnsubscribeFrom | backend/app/services/kds_stream.py:22-28 | the queue leaves its channel, and an empty channel is removed |
| Broadcast.Broadcaster.Get | backend/app/services/kds_stream.py:91 | a subscriber takes the oldest message waiting in its queue |
| Broadcast.Broadcaster.PutAll | backend/app/services/kds_stream.py:36-41 | every target with room receives the message once; the full ones are returned |
| Broadcast.Broadcaster.Publish | backend/app/services/kds_stream.py:30-48 | every listening queue with room receives the message and full ones leave every channel |
| Broadcast.Broadcaster.PublishKdsEvent | backend/app/services/kds_stream.py:62-70 | publishes to the wildcard channel and once to each distinct station |
| StaffSync.StaffTable.SyncStaffEmployees | backend/app/services/staff_identity_service.py:47-108 | an envelope is absorbed as a whole or rolled back as a whole: ids and codes are looked up in the table as it was, and the unique constraints decide at the commit; the counters say how many mentions wrote a row and how many were ignored |
| StaffSync.StaffTable.Commit | backend/app/models/staff_identity.py:27-32 | writes changed and added rows exactly when no staff id was added twice and no two codes are equal |
| StaffSync.CodesStayDistinct | backend/app/models/staff_identity.py:27-32 | after any deliveries of any envelopes no two employees share a code |
| StaffSync.AbsorbLaw | backend/app/services/staff_identity_service.py:56-99 | an envelope of a feed is accepted if and only if every employee it names twice already has a row; then each employee it names, by the first mention, replaces a row that is not stale, and every other row stays |
| StaffSync.RecordAnswer | backend/app/services/staff_identity_service.py:69-97 | every field of the record an employee gets, and exactly when the old one stays |
| StaffSync.RejectionAnswer | backend/app/services/staff_identity_service.py:48-67 | a foreign envelope, or one with a mention without code or name or with another employee's code, changes nothing |
| StaffSync.NewestWins | backend/app/services/staff_identity_service.py:69-97 | after any deliveries of envelopes that name no employee twice, each named employee has the record of an envelope naming them, and of a newest one if all of those have times |
| StaffSync.PlainConvergesExactly | backend/app/services/staff_identity_service.py:69-97 | among envelopes that name no employee twice, order and repetition never show if and only if, for each employee named by several, all of those have times and one alone is the newest |
| StaffSync.ConvergesExactly | backend/app/services/staff_identity_service.py:47-108 | for every feed, order and repetition never show if and only if that holds of the envelopes that name no employee twice, and each of the others that some order gets accepted says only what one of those says in a newer version |
| StaffSync.Convergence | backend/app/services/staff_identity_service.py:47-108 | with no employee named twice, a time on every envelope and no two alike, any two delivery orders with any repetitions end in the same table |
| StaffSync.EqualTimesDiverge | backend/app/services/staff_identity_service.py:74-79 | two envelopes that name one employee at one time, neither naming anyone twice and with no newer such one, give two delivery orders with different results |
| StaffSync.RepeatedNewcomerDiverges | backend/app/services/staff_identity_service.py:55-99 | an envelope that names new employees twice is lost when it comes before an older one that names them, and counts when it comes after |

## Left out

- HTTP routing, SQLAlchemy, Redis and httpx: a transaction commits whole or is rolled back whole, and the network is a nondeterministic outcome per request.
- The unlocked reads a route makes before its transaction, such as the status the void route reads before the row is locked: each order route is one atomic step.
- Decimal's 28-digit context and numeric column widths: amounts are unbounded and a ratio is an exact fraction.
- Text cleaning, JSON, UUID generation and timestamps as text: abstract values and an integer clock, with one reading of the clock per sync run.
- The payload digest (SHA-256) and the id derived from a request id (UUIDv5, section 5.5 of RFC 9562): treated as injective.
- Row ids: numbered from zero in order of creation.
- Price and modifier resolution from the catalog: the resolved price is given with each requested line; prices and rates are given already rounded.
- Guest, table and note fields of an order, kitchen states and table transfers; a merge takes the order its table lookup returned.
- Permissions, and approvals inside the settlement model: a request says whether a consumed approval comes with it; grants are modelled on their own in `Approvals`.
- The life of a room-charge posting after settlement: only whether the payment row has one.
- Physical returns (`sale_returned`): the receiver does not define their effect on stock.
- The Accounting queue, its payload mapping and the rewriting of `session.closed` rows, and the Operations queue, which repeats the Inventory one.
- The receiver's fixture checks of token, product name and id prefix; a lost acknowledgement after acceptance is added to its modes, being a network outcome.
- The in-memory fallback of the Redis limiter, and limits that change from call to call for one key.
- Scheduling fairness and lock waiting: a step that cannot run changes nothing. A grant's row lock at its first read is not relied upon.
- Broadcaster calls from several threads: synchronous services publish through an event loop of their own per call, while the model runs one operation at a time.
- Python's set order in the broadcaster: a set of queues is a sequence without repetitions.
- Reports, dashboards, recipes, logins, migrations and the frontend: lookups, input and output around the kernel.
- StaffSync.ConvergesExactly: for feeds whose envelopes have distinct ids and whose codes are fixed and unique per employee, because an envelope whose code is held by another employee is rejected as a whole.
- Concurrent staff envelopes: one is delivered after another.
