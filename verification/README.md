# A Dafny model of the commerce backend

This project models the parts of the backend that keep state other parts rely on, and
proves what every run of them keeps. `dafny verify dfyconfig.toml` checks all of it.

| area | files |
|---|---|
| Stock tables, reservations, movement ledger, order cancellation | `Stock.dfy` (operations as functions on a database state), `StockLaws.dfy`, `StockDocuments.dfy`, `StockRecords.dfy`, `Plans.dfy` (row order), `Inventory.dfy` (the service class, proved to refine them), `ReserveInterleaving.dfy` |
| Saga coordinator and the checkout saga | `Saga.dfy`, `SagaAttempts.dfy`, `SagaLaws.dfy`, `Checkout.dfy`, `CartLaws.dfy`, `CheckoutLaws.dfy`, `CheckoutPayments.dfy` |
| Redis protocols | `Idempotency.dfy`, `Locks.dfy` |
| Condition evaluator and coupon compiler | `Rules.dfy`, `RulesLaws.dfy`, `RulesScores.dfy`, `Coupons.dfy` |
| Payments and refunds | `Payments.dfy`, `PaymentLaws.dfy`, `PaymentOutcomes.dfy` |
| Case manager with its in-memory store | `Cases.dfy`, `CaseLaws.dfy`, `CaseOutcomes.dfy` |
| Refresh-token families | `RefreshTokens.dfy` |
| Category forest, CSV export, quintile scores, A/B buckets | `CategoryTree.dfy`, `Csv.dfy`, `Quintiles.dfy`, `AbTests.dfy` |
| Shared: options, results, sums over maps, intervals | `Totals.dfy` |

Conventions. Ids are natural numbers. Outcomes of the outside world (gateway replies, cache
failures, clocks, the order in which a query lists rows) are parameters, and every theorem
holds for all of them. A database transaction that throws leaves the state as it was. A
class models a service whose methods update state; each method is proved equal to a
function of the old state, and the laws are proved about those functions and about whole
runs of them.

Where a promise turned out not to hold for every input, the code is modelled as it is, an
input that breaks the promise is exhibited, and the exact condition is proved:

- a checkout whose cart does not fit, or whose `reserve_inventory` times out, keeps the
  reservations already made, because that step publishes their ids only on success and a
  failing step is not itself compensated (`CheckoutLaws.CheckoutLaw`,
  `CheckoutLaws.PartialReservationStays`);
- a saga can report success although a step never ran (`maxAttempts` below one) or threw a
  falsy value (`SagaLaws.CompletedExactly`, `SagaLaws.SilentlySkipped`);
- short-circuiting can change the answer of a tree in which a `not` is above an `all` that
  stops before an erring child (`RulesLaws.ShortCircuit`, `RulesLaws.ModesDiffer`);
- a captured payment of amount zero has its full amount refunded without being `refunded`
  (`PaymentLaws.FullExactlyWhenRefunded`, `PaymentLaws.FreePaymentNeverRefunded`);
- logging out with a superseded refresh token leaves its successor usable
  (`RefreshTokens.LogoutLaw`, `RefreshTokens.SupersededLogout`);
- the CSV header is not escaped, so a key with a comma, quote or line break is not recovered
  (`Csv.RoundTrip`, `Csv.CommaInKey`);
- A/B variants own their share of buckets only when the weights sum to 100
  (`AbTests.SharesExact`, `AbTests.UnclaimedBuckets`).

## Model

| member | source | states |
|---|---|---|
| `Inventory.InventoryService.SumRows` | backend/src/modules/inventory/services/inventory.service.ts:268-269 | summing the listed rows in a loop gives the specified total |
| `Inventory.InventoryService.MoveUnits` | backend/src/modules/inventory/services/inventory.service.ts:278-296 | the greedy loop over listed rows moves units between a row's two counters as specified, row by row until the quantity is reached |
| `Inventory.InventoryService.Reserve` | backend/src/modules/inventory/services/inventory.service.ts:263-345 | refines the specified reservation: same result, same new tables, unchanged on rejection |
| `Inventory.InventoryService.ReleaseReservation` | backend/src/modules/inventory/services/inventory.service.ts:347-425 | refines the specified release, unchanged on rejection |
| `Inventory.InventoryService.Adjust` | backend/src/modules/inventory/services/inventory.service.ts:429-517 | refines the specified adjustment and returns the new balance, unchanged on rejection |
| `Inventory.InventoryService.RegisterSerials` | backend/src/modules/inventory/services/inventory.service.ts:626-649 | registering serial numbers one by one stops at the first known one |
| `Inventory.InventoryService.CreateGoodsReceipt` | backend/src/modules/inventory/services/inventory.service.ts:521-676 | refines the specified receipt over all its lines; a rejected receipt changes nothing |
| `Inventory.InventoryService.CreateTransfer` | backend/src/modules/inventory/services/inventory.service.ts:680-838 | refines the specified transfer over all its lines; a rejected transfer changes nothing |
| `Inventory.InventoryService.CancelOrder` | backend/src/modules/orders/services/orders.service.ts:119-169 | refines the specified cancellation, releasing the listed reservations in turn |
| `StockLaws.ShiftShape` | backend/src/modules/inventory/services/inventory.service.ts:278-296 | the greedy loop keeps every row's warehouse and its sum of both counters, touches only listed rows and makes none negative |
| `StockLaws.ShiftSums` | backend/src/modules/inventory/services/inventory.service.ts:371-388 | the greedy loop moves exactly the smaller of the request and what the rows hold |
| `StockLaws.ReserveLaw` | backend/src/modules/inventory/services/inventory.service.ts:263-345 | accepted exactly when the warehouse exists and total available suffices; then available falls and reserved rises by exactly the request, there only, the new active reservation is the only new one, and the invariant and the ledger account for it |
| `StockLaws.ActiveIsHeld` | backend/src/modules/inventory/services/inventory.service.ts:347-425 | an active reservation never promises more than the rows hold |
| `StockLaws.ReleaseLaw` | backend/src/modules/inventory/services/inventory.service.ts:347-425 | succeeds exactly on active reservations and always drains exactly the reserved quantity back to available |
| `StockLaws.AdjustLaw` | backend/src/modules/inventory/services/inventory.service.ts:429-517 | accepted exactly when warehouse and bin match and the balance stays non-negative; keeps the invariant, and the ledger explains the change |
| `StockDocuments.AdjustmentExact` | backend/src/modules/inventory/services/inventory.service.ts:429-517 | an accepted adjustment changes one warehouse's total of one variant by exactly the delta |
| `StockLaws.ReceiveLaw` | backend/src/modules/inventory/services/inventory.service.ts:535-653 | a receipt keeps the invariant and the ledger explains the change |
| `StockDocuments.RegisterExact` | backend/src/modules/inventory/services/inventory.service.ts:626-649 | serial numbers are accepted exactly when none is known and none repeats, and then all become known |
| `StockDocuments.ReceiptExact` | backend/src/modules/inventory/services/inventory.service.ts:521-676 | the exact condition under which a receipt is accepted, and that it adds exactly the received quantities per variant to that warehouse only (what it puts on record: `StockRecords.ReceiptRecords`) |
| `StockLaws.TransferLaw` | backend/src/modules/inventory/services/inventory.service.ts:696-814 | a transfer keeps the invariant, the ledger explains it, and each variant's total over both warehouses is conserved |
| `StockDocuments.TransferExact` | backend/src/modules/inventory/services/inventory.service.ts:680-838 | the exact condition under which a transfer is accepted, lines that draw on one slot counted together, and that it moves exactly the listed quantities from source to target |
| `StockLaws.ReleaseEachLaw` | backend/src/modules/orders/services/orders.service.ts:150-155 | releasing distinct active reservations in turn never fails and gives back exactly what they promised |
| `StockLaws.CancelOrderLaw` | backend/src/modules/orders/services/orders.service.ts:119-169 | cancels exactly pending or confirmed orders of the caller (or for an admin), releases exactly that order's active reservations, no other, and gives back exactly their stock |
| `StockLaws.NextKeeps` | backend/src/modules/inventory/services/inventory.service.ts:263-838 | every operation keeps: rows non-negative, a row's warehouse is its bin's, total reserved equals the sum of active reservations, and the ledger explains the change of available stock |
| `StockLaws.RunLaw` | backend/src/modules/inventory/services/inventory.service.ts:263-838 | the same over every run of reserve, release, adjust, receipt, transfer and cancel |
| `StockLaws.LedgerReplaysStock` | backend/src/modules/inventory/services/inventory.service.ts:312-320 | after every run from an empty ledger, available equals initial stock plus the signed replay of the ledger, and reserved equals the active promises |
| `Plans.PlanExists` | backend/src/modules/inventory/repositories/inventory.repository.ts:38-48 | rows can always be listed as the operations expect, each once and by descending available quantity |
| `StockRecords.ShiftGreedy` | backend/src/modules/inventory/services/inventory.service.ts:278-296 | rows are used up in the order listed: a row is touched only if all before it are emptied |
| `StockRecords.ReserveRecords` | backend/src/modules/inventory/services/inventory.service.ts:263-345 | which refusal is given when, and that an accepted reservation writes exactly one reservation, one ledger entry and rows, in the listed order |
| `StockRecords.ReleaseRecords` | backend/src/modules/inventory/services/inventory.service.ts:347-425 | the same for a release |
| `StockRecords.AdjustRecords` | backend/src/modules/inventory/services/inventory.service.ts:429-517 | which refusal is given when, and that an accepted adjustment writes exactly its slot and one ledger entry |
| `StockRecords.ReceiptRecords` | backend/src/modules/inventory/services/inventory.service.ts:521-676 | refusals in order; an accepted receipt puts its number on record, one ledger entry per line in order, exactly its quantities into each slot, and nothing else |
| `StockRecords.ReceiptLineRefusals` | backend/src/modules/inventory/services/inventory.service.ts:551-640 | a receipt is refused for a serial number if all bins match, and for a bin if all serial numbers are new |
| `StockRecords.TransferRecords` | backend/src/modules/inventory/services/inventory.service.ts:680-838 | refusals in order; an accepted transfer puts its number on record, two ledger entries per line in order, takes from and brings to each slot exactly what its lines say, and nothing else |
| `StockRecords.TransferLineRefusals` | backend/src/modules/inventory/services/inventory.service.ts:709-760 | a transfer whose lines are all well routed is refused for want of stock; a misrouted line with stock is a bad request |
| `StockRecords.CancelRefusals` | backend/src/modules/orders/services/orders.service.ts:123-134 | unknown order, stranger, and status past cancelling are told apart |
| `StockRecords.BookedOnce` | backend/src/modules/inventory/services/inventory.service.ts:522-547 | in every run a receipt number is accepted at most once, a transfer number at most once, and a serial number is received at most once |
| `ReserveInterleaving.InterleavedReserveExact` | backend/src/modules/inventory/services/inventory.service.ts:263-296 | whatever receipts and incoming transfers land between the read and the row updates, the snapshot stays a lower bound, exactly the requested quantity is taken and no row goes negative |
| `Saga.Coordinator.constructor` | backend/src/shared/workflow/saga-coordinator.service.ts:42-54 | a new instance is running, all steps pending |
| `Saga.Coordinator.RunSteps` | backend/src/shared/workflow/saga-coordinator.service.ts:38-146 | the forward loop with its deadline equals the specified run |
| `Saga.Coordinator.ExecuteStep` | backend/src/shared/workflow/saga-coordinator.service.ts:75-118 | the retry loop of a step equals the specified attempts (see `SagaAttempts.AttemptsLaw`), and reports the error the coordinator notices |
| `Saga.Coordinator.CompensateSteps` | backend/src/shared/workflow/saga-coordinator.service.ts:148-188 | the descending compensation loop equals the specified compensation |
| `SagaAttempts.AttemptsLaw` | backend/src/shared/workflow/saga-coordinator.service.ts:89-118 | a step is attempted until one attempt is done, each from the world the one before left, at most as often as its policy allows; the last attempt decides record, attempt count, world, context and trace |
| `SagaAttempts.NoticedExactly` | backend/src/shared/workflow/saga-coordinator.service.ts:90-119 | a step is noticed to fail if and only if all its attempts fail and the last one throws a truthy value, and the error is that one |
| `SagaAttempts.Defaults` | backend/src/shared/workflow/saga-coordinator.service.ts:59-79 | own policy before the definition's before one attempt; own limit before one minute |
| `SagaAttempts.DueStepsAre` | backend/src/shared/workflow/saga-coordinator.service.ts:160-165 | due for compensation are exactly the completed steps with a compensator, in strictly descending order |
| `SagaAttempts.CompensationsApply` | backend/src/shared/workflow/saga-coordinator.service.ts:160-180 | the due compensators run one after the other, each on the world the one before left, whether or not that one succeeded, and are logged accordingly |
| `SagaLaws.RunLaw` | backend/src/shared/workflow/saga-coordinator.service.ts:38-188 | every run's trace is the executed steps in order, then, unless it completed, exactly the due compensations; steps past the failure stay pending; the context is the patches folded in order |
| `SagaLaws.StopLaw` | backend/src/shared/workflow/saga-coordinator.service.ts:62-133 | a run stops at the first step that is due after the deadline or is noticed to fail; it times out in the first case, fails with that step's error in the second, and ends in the world the due compensators lead to |
| `SagaLaws.CompensationsDescend` | backend/src/shared/workflow/saga-coordinator.service.ts:160-182 | compensations descend strictly, each at most once, for exactly the completed steps that have a compensator |
| `SagaLaws.CompletedExactly` | backend/src/shared/workflow/saga-coordinator.service.ts:89-138 | in a completed run a step's record is completed if and only if the step may be attempted at least once and its attempts do not all fail with a falsy value thrown last |
| `SagaLaws.SilentlySkipped` | backend/src/shared/workflow/saga-coordinator.service.ts:90-137 | a run that completes although its step never ran, and one whose step threw a falsy value |
| `SagaLaws.ReversibleRunRestores` | backend/src/shared/workflow/saga-coordinator.service.ts:148-188 | if every step has an exact inverse as compensator, a run that does not complete leaves the world as it was |
| `CartLaws.ReserveCartLaw` | backend/src/modules/orders/services/checkout.service.ts:253-276 | reserving a cart takes exactly what the new reservations promise, whether or not it reaches the end, and makes one if and only if the first line fits |
| `CartLaws.ReserveCartExact` | backend/src/modules/orders/services/checkout.service.ts:255-276 | the loop reaches its end if and only if the warehouse has, of every variant, what all lines together ask for; its reservations are those of the cart's lines, one each and in order |
| `CartLaws.LongestFittingPrefix` | backend/src/modules/orders/services/checkout.service.ts:255-276 | the lines reserved are the longest part of the cart, from its start, that fits |
| `CartLaws.ReleaseQuietlyIsReleaseEach` | backend/src/modules/orders/services/checkout.service.ts:277-286 | the compensator's swallowed errors never occur on active reservations |
| `CheckoutLaws.CheckoutLaw` | backend/src/modules/orders/services/checkout.service.ts:149-379 | every checkout, by conditions on its inputs: completed means every line reserved, as asked, and the order confirmed (pending without automatic settlement); not completed although the cart fits and the step is in time means order cancelled, its reservations released and all totals as before; stock is lost if and only if the order is drafted, `reserve_inventory` starts before the deadline, its first line fits, and the whole cart does not fit or the step times out, and then exactly the longest fitting part stays reserved |
| `CheckoutPayments.CompletesExactly` | backend/src/modules/orders/services/checkout.service.ts:287-376 | a checkout completes if and only if the order is drafted, the cart fits and the payment is created, authorized, captured and confirmed, each in time and within two attempts; in every case the payments are those of that story, with the created payment voided once for every payment step undone |
| `CheckoutPayments.NoOrderUnpaid` | backend/src/modules/orders/services/checkout.service.ts:308-339 | with settlement on, a checkout whose payment is never created, never authorized or never captured does not complete |
| `CheckoutLaws.PartialReservationStays` | backend/src/modules/orders/services/checkout.service.ts:255-276 | a two-line cart whose second line is out of stock fails; its order is cancelled, yet one of the first line's five units stays reserved by an active reservation of that order |
| `Idempotency.IdempotencyLaw` | backend/src/shared/idempotency/idempotency.interceptor.ts:36-174 | in every interleaving: at most one request between claim and finish, and with the fingerprint on record; at most one successful handler run; every replay returns that run's status and body to the same fingerprint |
| `Idempotency.NoRunAfterSuccess` | backend/src/shared/idempotency/idempotency.interceptor.ts:89-174 | after a handler run succeeded no handler ever runs again |
| `Idempotency.IdempotencyInterceptor.Prepare` | backend/src/shared/idempotency/idempotency.interceptor.ts:89-174 | claims the key exactly when nothing is on record and the claim does not raise an error; otherwise gives the answer the protocol prescribes |
| `Idempotency.IdempotencyInterceptor.Intercept` | backend/src/shared/idempotency/idempotency.interceptor.ts:36-87 | a request served alone leaves the specified record and answer for all cache faults and both handler outcomes, and runs the handler only if nothing was on record |
| `Idempotency.ServedIsPath` | backend/src/shared/idempotency/idempotency.interceptor.ts:36-174 | from any state, what the interceptor does to record and request is a path of protocol steps, so the laws over interleavings cover it |
| `Idempotency.RepeatLaw` | backend/src/shared/idempotency/idempotency.interceptor.ts:120-174 | repeating an answered request never runs the handler again and keeps the record, whatever fails; if the record can be read, the same request is answered as before and another one is refused; a failed and cleared request leaves no trace |
| `Idempotency.AnswerLaw` | backend/src/shared/idempotency/idempotency.interceptor.ts:114-171 | the answer to a request when something is on record: conflict, in progress or replay, for every fault |
| `Idempotency.FirstLaw` | backend/src/shared/idempotency/idempotency.interceptor.ts:60-86 | when nothing is on record, what the handler did is what is answered and recorded |
| `Locks.MutualExclusion` | backend/src/shared/lock/lock.service.ts:31-119 | in every interleaving of acquire, extend, release, crash and clock ticks no two unexpired holders of one key coexist |
| `Locks.TryLaw` | backend/src/shared/lock/lock.service.ts:40-51 | a try is granted exactly when no unexpired holder exists, and the caller then holds the key for exactly the time asked; nobody else is affected; a refused try changes nothing, so the loop may repeat it with the same token |
| `Locks.OthersUntouched` | backend/src/shared/lock/lock.service.ts:57-90 | a late release or extend never touches another holder's lock |
| `Locks.ReleaseLaw` | backend/src/shared/lock/lock.service.ts:57-68 | in every run, a holder that releases leaves its key without holder and record, and affects no other key |
| `Locks.HandedOver` | backend/src/shared/lock/lock.service.ts:95-119 | the try that follows a release is granted |
| `Locks.ExtendLaw` | backend/src/shared/lock/lock.service.ts:73-90 | in every run, a holder that extends holds until exactly the new moment, and nobody else is affected |
| `Locks.ExpiryLaw` | backend/src/shared/lock/lock.service.ts:40-43 | time alone ends a lock at exactly the moment it was taken for |
| `Locks.AcquireLoop` | backend/src/shared/lock/lock.service.ts:31-52 | the polling loop stops at the first success, gives up only after the deadline, and makes at most ceil(waitMs/retryMs)+1 tries, where a retry interval of zero counts as the timer's one millisecond |
| `Rules.EvaluateNode` | backend/src/shared/rules/ConditionEvaluator.ts:63-119 | the recursive evaluator computes the specified verdict |
| `Rules.EvaluateGroup` | backend/src/shared/rules/ConditionEvaluator.ts:121-194 | the group loop with its early returns equals its turn-by-turn specification |
| `Rules.FinishAll` | backend/src/shared/rules/ConditionEvaluator.ts:146-185 | the loop's accumulators compute the verdict of an `all` group, defined on the children's verdicts |
| `Rules.FinishAny` | backend/src/shared/rules/ConditionEvaluator.ts:146-193 | the same for an `any` group, where a match discards the errors |
| `RulesLaws.ErrorsNeverMatch` | backend/src/shared/rules/ConditionEvaluator.ts:63-194 | a result with errors is never matched |
| `RulesLaws.MatchesTruth` | backend/src/shared/rules/ConditionEvaluator.ts:63-194 | on trees without `not`, and on trees whose leaves never err, either mode gives plain Boolean evaluation, without errors in the second case |
| `RulesLaws.EvaluateReads` | backend/src/shared/rules/ConditionEvaluator.ts:63-194 | each mode computes a three-valued reading of the tree, defined on the leaves' outcomes alone |
| `RulesLaws.NarrowNotsAgree` | backend/src/shared/rules/ConditionEvaluator.ts:158-163 | if no `not` is above an `all` with several children, the two readings say yes to the same leaf outcomes |
| `RulesLaws.ShortCircuit` | backend/src/shared/rules/ConditionEvaluator.ts:121-194 | the modes give different answers if and only if the tree, read with every child looked at, errs, and, read with each `all` stopping at its first child that is not a yes, says yes; so never if no `not` is above an `all` with several children; without `not` or without erring leaves both are the Boolean reading |
| `RulesLaws.ModesDiffer` | backend/src/shared/rules/ConditionEvaluator.ts:121-194 | a tree on which the modes differ, and on which the order of children matters when short-circuiting |
| `RulesLaws.OrderIrrelevant` | backend/src/shared/rules/ConditionEvaluator.ts:121-194 | without short-circuiting, permuting children at any depth keeps match, score and the collected errors |
| `RulesScores.EvaluateIs` | backend/src/shared/rules/ConditionEvaluator.ts:63-194 | match, score and errors of an evaluation in either mode, told by the leaves and by which children are looked at |
| `Coupons.BuildCouponConditions` | backend/src/modules/marketing/utils/rule-builders.ts:4-48 | pushing parts one by one yields the specified tree for none, one or many parts |
| `Coupons.RestrictionNode` | backend/src/modules/marketing/services/coupon.service.ts:285-314 | the extra node is the specified conjunction of restrictions, or none |
| `Coupons.CompiledMeaning` | backend/src/modules/marketing/utils/rule-builders.ts:4-48 | evaluating the compiled tree, in either mode, decides exactly the terms read directly, for any extra node, and never errs |
| `Coupons.RestrictionsEitherWay` | backend/src/modules/marketing/services/coupon.service.ts:229-247 | restrictions as lists or as the extra node give the same answer |
| `Coupons.DatesAgree` | backend/src/modules/marketing/validators/marketing.validators.ts:1-11 | the date leaves agree with the direct activity test at every time |
| `Coupons.RestrictedBrands` | backend/src/modules/marketing/services/coupon.service.ts:222-224 | collects exactly the brands of brand rules that name one |
| `Coupons.RestrictedCategories` | backend/src/modules/marketing/services/coupon.service.ts:225-227 | collects exactly the categories of category rules that name one |
| `Coupons.MinCartIs` | backend/src/modules/marketing/services/coupon.service.ts:230-235 | the minimum is the column's, else that of the first minimum-cart rule, even if that has none |
| `Coupons.EvaluateEligibility` | backend/src/modules/marketing/services/coupon.service.ts:217-283 | a coupon is eligible exactly when cart minimum, date window, brand and category rules and both usage limits are met |
| `Payments.PaymentService.Create` | backend/src/modules/payments/services/payments.service.ts:78-174 | adds a pending payment with its first attempt, or rejects in the order of the checks |
| `Payments.PaymentService.Authorize` | backend/src/modules/payments/services/payments.service.ts:176-278 | changes the named payment as specified for every gateway reply, and no other |
| `Payments.PaymentService.Capture` | backend/src/modules/payments/services/payments.service.ts:280-382 | likewise, including the free payment that needs no gateway |
| `Payments.PaymentService.Cancel` | backend/src/modules/payments/services/payments.service.ts:384-450 | likewise; captured payments are refused |
| `Payments.PaymentService.VoidOrCancel` | backend/src/modules/payments/services/payments.service.ts:453-467 | cancels quietly unless already cancelled or failed |
| `Payments.PaymentService.Retry` | backend/src/modules/payments/services/payments.service.ts:469-499 | reopens a failed payment, authorizes it and, if that succeeds, captures it |
| `Payments.PaymentService.Refund` | backend/src/modules/payments/services/refund.service.ts:37-201 | the comparisons in rupees with tolerance come to the exact comparison in paise, for every branch and gateway reply |
| `Payments.ToleranceIsExact` | backend/src/modules/payments/services/refund.service.ts:64-75 | the tolerance of 0.001 never changes a comparison of whole paise |
| `PaymentLaws.RunLaw` | backend/src/modules/payments/validators/payment-state.validator.ts:6-45 | in every run every status written follows an edge of the allowed table; refunded never exceeds the amount, equals the non-failed refund rows, is zero before and while captured, strictly between while partial; a closing refund row exists exactly when refunded; attempts are numbered 1, 2, 3 and so on |
| `PaymentLaws.FullExactlyWhenRefunded` | backend/src/modules/payments/services/refund.service.ts:138-148 | in every run, full amount refunded and status refunded coincide if and only if the amount is positive; partly refunded and partial status coincide always |
| `PaymentLaws.FreePaymentNeverRefunded` | backend/src/modules/payments/services/payments.service.ts:292-307 | a run that captures a payment of zero |
| `PaymentLaws.RefundFindsGateway` | backend/src/modules/payments/services/refund.service.ts:104-110 | on reachable payments a refund is refused with a conflict only for its status, never for a missing gateway payment |
| `PaymentLaws.CancelFollowsTable` | backend/src/modules/payments/services/payments.service.ts:384-420 | cancelling, which does not consult the table, still follows it exactly when the payment is neither expired nor charged back |
| `PaymentLaws.StepLaw` | backend/src/modules/payments/services/payments.service.ts:176-499 | cancelled and refunded payments are final, refunds never shrink and the written history only grows |
| `PaymentLaws.RefundsCompose` | backend/src/modules/payments/services/refund.service.ts:64-148 | two refunds lead to the same amount and status as one of their sum |
| `PaymentOutcomes.TableShape` | backend/src/modules/payments/validators/payment-state.validator.ts:6-34 | which statuses may lead to each status |
| `PaymentOutcomes.AuthorizeLaw` | backend/src/modules/payments/services/payments.service.ts:176-278 | authorized exactly when the gateway is asked and accepts with an id, failed exactly when it refuses; outcomes, numbered attempts and everything left unchanged |
| `PaymentOutcomes.CaptureLaw` | backend/src/modules/payments/services/payments.service.ts:280-382 | newly captured exactly when the gateway takes it or nothing is due; outcomes and everything left unchanged |
| `PaymentOutcomes.CancelLaw` | backend/src/modules/payments/services/payments.service.ts:384-450 | newly cancelled exactly when no money was taken and the gateway agrees |
| `PaymentOutcomes.VoidLaw` | backend/src/modules/payments/services/payments.service.ts:453-467 | the same for the owner, quietly, leaving failed payments alone |
| `PaymentOutcomes.RetryLaw` | backend/src/modules/payments/services/payments.service.ts:469-499 | only the owner's failed or pending payment is retried; the status each pair of replies leads to |
| `PaymentOutcomes.RefundLaw` | backend/src/modules/payments/services/refund.service.ts:37-201 | booked exactly when the owner asks for no more than is left of a captured payment and the gateway does not throw, and then by exactly the request; a throw leaves one failed row and nothing else |
| `Cases.InMemoryCaseStore.Open` | backend/src/shared/case-management/memory-case.store.ts:30-65 | puts a snapshot with its due date and a timeline of one entry; priority 3 by default |
| `Cases.CaseManager.OpenSupportCase` | backend/src/shared/case-management/case-manager.service.ts:49-78 | opens a support case in its opening status, with due date and timeline, replacing an older case of that id |
| `Cases.CaseManager.Transition` | backend/src/shared/case-management/case-manager.service.ts:88-146 | moves the case along an allowed edge and logs it, skips a same-state move, refuses others |
| `Cases.CaseManager.Assign` | backend/src/shared/case-management/case-manager.service.ts:148-171 | assigns and logs |
| `Cases.CaseManager.SetPriority` | backend/src/shared/case-management/case-manager.service.ts:173-188 | changes priority and due date and logs both |
| `Cases.CaseManager.AddNote` | backend/src/shared/case-management/case-manager.service.ts:190-209 | logs a note on an existing case |
| `Cases.CaseManager.Escalate` | backend/src/shared/case-management/case-manager.service.ts:299-336 | marks and logs the escalation, then moves the case if a target is set and allowed |
| `Cases.CaseManager.EvaluateSla` | backend/src/shared/case-management/case-manager.service.ts:239-342 | escalates exactly when a rule asks for it and the case was not escalated, with the right reason and the automatic move if allowed |
| `CaseLaws.RunLaw` | backend/src/shared/case-management/case-manager.service.ts:49-342 | in every run, for any transition table: the timeline's status entries chain along allowed edges to the current status; one escalation entry, at the recorded time, if escalated and none otherwise; closed exactly when a terminal status was entered; due date equals recomputation |
| `CaseLaws.EscalatedOnce` | backend/src/shared/case-management/case-manager.service.ts:283-338 | an escalated case is never escalated again |
| `CaseLaws.RaisingNeverLater` | backend/src/shared/case-management/case-sla.ts:3-11 | raising the priority never moves the due date later, rounding included |
| `CaseLaws.PriorityRoundTrip` | backend/src/shared/case-management/memory-case.store.ts:99-113 | changing the priority and back restores the snapshot |
| `CaseLaws.RegistryGraded` | backend/src/shared/case-management/case.registry.ts:9-68 | the registered policies give higher priorities no smaller multiplier, and listed and default multipliers agree |
| `CaseOutcomes.DeadlinesAre` | backend/src/shared/case-management/case-sla.ts:3-21 | both deadlines lie the policy's minutes divided by the multiplier after the opening, rounded to the nearest whole minute, halves up, at least one |
| `CaseOutcomes.TransitionLaw` | backend/src/shared/case-management/case-manager.service.ts:88-146 | accepted along an edge of the table or in place where allowed; what an edge writes, and that nothing else changes anything |
| `CaseOutcomes.OpenLaw` | backend/src/shared/case-management/memory-case.store.ts:30-65 | what a new case looks like |
| `CaseOutcomes.PriorityLaw` | backend/src/shared/case-management/case-manager.service.ts:173-188 | what a change of priority writes |
| `CaseOutcomes.EscalationLaw` | backend/src/shared/case-management/case-manager.service.ts:253-338 | when evaluating the policy escalates, with which reason, and when the case moves |
| `RefreshTokens.RefreshTokenRepository.RevokeFamily` | backend/src/modules/auth/repositories/refresh-token.repository.ts:59-73 | revokes exactly the active tokens of a family |
| `RefreshTokens.RefreshTokenRepository.RevokeAllForUser` | backend/src/modules/auth/repositories/refresh-token.repository.ts:75-89 | revokes exactly the active tokens of a user |
| `RefreshTokens.AuthService.CreateRefreshPair` | backend/src/modules/auth/services/token.service.ts:48-69 | starts a family of its own |
| `RefreshTokens.AuthService.Refresh` | backend/src/modules/auth/services/auth.service.ts:376-462 | exchanges, refuses, or revokes the family on reuse, as specified |
| `RefreshTokens.AuthService.Logout` | backend/src/modules/auth/services/auth.service.ts:464-475 | revokes the presented token if it is the user's |
| `RefreshTokens.AuthService.ChangePassword` | backend/src/modules/auth/services/auth.service.ts:539-587 | revokes all active tokens of the user once the passwords are accepted |
| `RefreshTokens.OneActive` | backend/src/modules/auth/services/auth.service.ts:376-475 | after every run a family has one owner and at most one active token |
| `RefreshTokens.OneChain` | backend/src/modules/auth/repositories/refresh-token.repository.ts:48-57 | after every run the replacement links lead from a family's first token through every one to the newest, never return, and only the newest can be active |
| `RefreshTokens.ReuseKillsFamily` | backend/src/modules/auth/services/auth.service.ts:388-404 | presenting a rotated or revoked token revokes exactly the family's active token and leaves it none |
| `RefreshTokens.RefreshLaw` | backend/src/modules/auth/services/auth.service.ts:406-440 | which outcome a presented token has; it is exchanged exactly when active, unexpired and its user may sign in, its successor has its user and family and is then the only active one, and no other token changes |
| `RefreshTokens.OtherSteps` | backend/src/modules/auth/services/auth.service.ts:376-386 | a login adds one active token in a new family, an unknown secret changes nothing, a change of password ends exactly the user's active tokens |
| `RefreshTokens.DeadForever` | backend/src/modules/auth/services/auth.service.ts:376-475 | a family without an active token never gains one in any continuation |
| `RefreshTokens.LogoutLaw` | backend/src/modules/auth/services/auth.service.ts:464-475 | logout revokes exactly the presented token, of its own user only, and ends the family if and only if that token was active or none was |
| `RefreshTokens.SupersededLogout` | backend/src/modules/auth/services/auth.service.ts:464-475 | after login, refresh and logout with the first token the second one is active and can be exchanged |
| `CategoryTree.IndexRows` | backend/src/modules/catalog/mappers/catalog.mapper.ts:39-49 | the first loop builds the map of rows by id, without children |
| `CategoryTree.NodesIndex` | backend/src/modules/catalog/mappers/catalog.mapper.ts:39-49 | with distinct ids that map holds every row under its id and nothing else |
| `CategoryTree.ParentIs` | backend/src/modules/catalog/mappers/catalog.mapper.ts:51-53 | a row hangs under exactly the row whose id it names, if there is one |
| `CategoryTree.LinkRows` | backend/src/modules/catalog/mappers/catalog.mapper.ts:50-57 | the second loop gives every node its children and the roots, in row order |
| `CategoryTree.SortRec` | backend/src/modules/catalog/mappers/catalog.mapper.ts:58-61 | the recursive sort terminates although the rows may contain cycles, and yields complete, stably sorted sibling lists at every level |
| `CategoryTree.BuildCategoryTree` | backend/src/modules/catalog/mappers/catalog.mapper.ts:38-64 | every level lists exactly the children of its parent, once each, sorted by sort order and name with ties in row order, and every row occurs once if its chain of parents ends and otherwise not at all |
| `CategoryTree.EveryAnchoredRowOnce` | backend/src/modules/catalog/mappers/catalog.mapper.ts:38-64 | any such forest holds a row exactly once if its chain of parents ends, and otherwise not at all |
| `CategoryTree.UnanchoredIsCycle` | backend/src/modules/catalog/mappers/catalog.mapper.ts:51-56 | a chain of parents does not end exactly when it enters a cycle |
| `Csv.RoundTrip` | backend/src/modules/analytics/utils/export.util.ts:3-25 | the reader recovers exactly the printed cells if and only if there is a key and no key contains a comma, quote or line break |
| `Csv.CommaInKey` | backend/src/modules/analytics/utils/export.util.ts:21-24 | a table that is not recovered |
| `Csv.KeysSound` | backend/src/modules/analytics/utils/export.util.ts:5-10 | the header has every key of every row exactly once |
| `Csv.KeysInOrder` | backend/src/modules/analytics/utils/export.util.ts:5-10 | keys of earlier rows come first, and those a row adds come in that row's order |
| `Csv.CellIs` | backend/src/modules/analytics/utils/export.util.ts:23-23 | a row's cell under one of its keys is the value it has there |
| `Csv.PrintsApart` | backend/src/modules/analytics/utils/export.util.ts:3-25 | rows that print the same text have the same keys and the same cell under every key |
| `Csv.ReadsField` | backend/src/modules/analytics/utils/export.util.ts:11-20 | an escaped cell is read back whatever it contains |
| `Quintiles.ScoreQuintile` | backend/src/modules/analytics/services/insights.service.ts:217-229 | the in-place loop gives every row the score of its position in the sorted order |
| `Quintiles.ScoreLaw` | backend/src/modules/analytics/services/insights.service.ts:217-229 | scores lie in 1 to 5, a strictly larger value never scores lower (reversed when inverted), and group sizes differ by at most one |
| `Quintiles.ClampNeverActs` | backend/src/modules/analytics/services/insights.service.ts:226-226 | the cap at 5 never changes a score |
| `AbTests.HashPercent` | backend/src/modules/marketing/services/growth.services.ts:131-135 | the bucket is in 0 to 99 and the wrap-around at every step equals one reduction at the end |
| `AbTests.PolyIsWeighted` | backend/src/modules/marketing/services/growth.services.ts:131-135 | before wrap-around the hash is the sum of the code units, each times 31 to the number of units after it |
| `AbTests.Choose` | backend/src/modules/marketing/services/growth.services.ts:809-817 | the cursor loop finds the variant whose cumulative range holds the bucket, or the first one beyond all ranges |
| `AbTests.Expose` | backend/src/modules/marketing/services/growth.services.ts:798-817 | without variants there is no choice; otherwise the owner of the customer's bucket |
| `AbTests.OneOwner` | backend/src/modules/marketing/services/growth.services.ts:809-817 | no bucket has two owners |
| `AbTests.SomeOwner` | backend/src/modules/marketing/services/growth.services.ts:809-817 | every bucket has an owner |
| `AbTests.Share` | backend/src/modules/marketing/services/growth.services.ts:809-817 | how many buckets each variant owns, for any weights |
| `AbTests.SharesExact` | backend/src/modules/marketing/services/growth.services.ts:809-817 | every variant owns as many buckets as its weight if and only if the weights sum to 100 |
| `AbTests.UnclaimedBuckets` | backend/src/modules/marketing/services/growth.services.ts:809-817 | with weights 50 and 30 the first variant owns 70 buckets |

## Left out

- Operations that write several tables are atomic and do not overlap, except in `ReserveInterleaving`, `Idempotency` and `Locks`; in particular `releaseReservation` tests the status before it takes its lock, and payment operations take different lock keys.
- Outgoing transfers are kept apart from a running `reserve` in the interleaving model.
- Deadline and time-out of a saga step: a timed-out attempt is rejected but keeps its effects; effects that arrive after the rejection are not modelled.
- SagaLaws.ReversibleRunRestores: assumes that a failed attempt has no effect, that steps throw truthy values, and that later steps do not overwrite the context keys a compensator reads.
- Expiry of an idempotency record during a handler run, and requests abandoned by a time-out.
- Idempotency scope and key strings, and the JSON form of stored bodies.
- Locks.AcquireLoop: assumes that every sleep lasts at least `retryMs`, and at least one millisecond.
- Gateway webhooks (`applyGatewayStatus`), which write any status unguarded; audit rows, transactions, events and e-mail of payments.
- Inside the checkout saga the payment service is an arbitrary state with arbitrary replies; it is not joined with the payment model of `Payments.dfy`.
- Money is in whole paise and real arithmetic; floating-point rounding is not modelled, nor is it in due dates and quintiles.
- The operators inside condition leaves, path resolution and validation of condition trees; the textual reasons of an evaluation.
- Coupon discounts, coupon usage rows and redemption; dates are milliseconds rather than ISO strings.
- Case attachments, events and the `before` and `after` hooks; the concrete transition tables (the laws hold for any table).
- Password checks, access tokens, sessions and hashing of refresh tokens: secrets are taken to be distinct.
- CategoryTree.BuildCategoryTree: rows have distinct ids, and the nested value is read off while sorting instead of being linked through shared node objects.
- CSV: how a value becomes a string; the spreadsheet and text exports.
- A/B weights that are negative or not whole; the recorded exposure rows.
- Inventory: low-stock alerts, purchase orders, refurbishment, cycle counts, and the status column of rows and serials.
- Loyalty points, dashboards, search, content pages and the HTTP layer: reads or single checks without a law over several operations.
