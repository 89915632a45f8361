# Bookstore core: stock, payments, caching and the algorithms around them

A Dafny model of the stateful protocols of a NestJS bookstore. Redis, the MySQL rows and
the clock are plain state; every awaited call or SQL statement is one atomic step. Each
module is one component:

| file | component |
|---|---|
| `Common.dfy` | optional values, requested items, sums over sequences |
| `RedisReservation.dfy` | stock counters: SET NX, the atomic Lua decrement, the later check, the single-key restore |
| `Inventory.dfy` | the `stock` and `reserved` columns: guarded batch CASE, paid decrement, rollback, expiry sweep, import |
| `InventoryLedger.dfy` | whole runs of those statements against a ledger |
| `ReservedUnits.dfy` | whose units the `reserved` column holds |
| `DeferredReservation.dfy` | Redis grants, the database path and the worker's later batch together |
| `Checkout.dfy` | the reservation section of checkout as one call |
| `Webhook.dfy` | one SePay delivery and one status poll, write by write |
| `WebhookRuns.dfy` | whole runs of checkouts, deliveries, polls, worker writes and intent purges |
| `WebhookUnits.dfy` | exactly how many units a run takes for one order |
| `VersionedCache.dfy` | the versioned cache, alone and with interleaved readers and writers |
| `CategoryForest.dfy` | the category tree builder and its recursive sort |
| `DeviceSlots.dfy` | four device slots per user |
| `ResendThrottle.dfy` | the throttle on register emails |
| `CheckoutTotals.dfy`, `Snapshots.dfy` | what a checkout accepts and charges, and the price snapshots the worker writes |
| `Scores.dfy` | recommendation scores and their top 20 |
| `CartMerge.dfy`, `Addresses.dfy`, `UniqueSlug.dfy`, `LikePattern.dfy`, `Decimal.dfy` | cart merge, default address, slug search, LIKE escaping, decimal printing |

Classes hold the state that the source updates in place; their methods follow the
source's statements and are tied to functions of the old state. Lemmas then prove what
the source promises about those functions, mostly over whole runs.

## What the proofs found

The code is modelled as it is written. Where it differs from its own comments, or from
what one would expect, the exact condition or a run that shows it is proved:

- A refused Redis checkout puts back only the first short counter; a refusal is neutral if
  and only if the request named a single variant (`RedisReservation.RefusalIsNeutralIffSingleItem`).
- The guarded batch skips what does not fit without an error: it reserves the whole request
  if and only if every item fits (`Inventory.BatchReservesAllIffAllFit`).
- `clearOrder` credits `stock` with quantities that reservation never took from it
  (`Inventory.ReleaseCreditsStockAgain`).
- Two overlapping sweeps release an order twice if and only if it was expired and unpaid
  when each of them read (`InventoryLedger.OverlapReleasesTwiceIffExpiredAtBothReads`); over
  any run an order is released once for each cleared sweep that had found it
  (`InventoryLedger.ReleasedOncePerClearedFind`).
- A sweep can cancel an order whose units stay reserved. For an order that holds its units
  this happens if and only if it is past its expiry when the sweep clears and the sweep had
  not read items of it (`ReservedUnits.CancelledStillHoldingIffNothingWasRead`): say, it expired
  after the read, had a payment status other than PENDING, or was read before the worker
  had written its items (`ReservedUnits.SweptBeforeItemsKeepsUnits`).
- The fallback after a Redis refusal looks at no quantity: a request is accepted if and only
  if every item fits in Redis, or there are items and every row read had something left
  (`Checkout.Reserve`, `Checkout.OneUnitLeftAcceptsAnyQuantity`).
- The worker's later batch reserves a request that Redis granted whole if and only if, for
  each of its items, the units granted so far and the item's own are no more than what the
  row started with, what was imported and twice what sweeps released
  (`DeferredReservation.WorkerReservesWholeIff`). It can be short only by what the database
  path has reserved (`DeferredReservation.GrantedShortByFallbackAtMost`), and then the order is
  skipped silently: seven units accepted of five (`DeferredReservation.FallThroughSkipsGranted`).
- `reserved` is the sum of what orders and checkouts hold, throughout a run, if and only if
  every order that is paid or swept was granted its units and still holds them, every
  rollback undoes a payment that took them, and none is granted twice
  (`ReservedUnits.ReservedIsHeldIffAllInTurn`). Two ways to break it: a guest's transfer order
  is never reserved (`ReservedUnits.UnreservedPaymentKeepsReservedIffOthersHoldEnough`), and an
  order can be swept 40 minutes after it was placed while its intent is payable for 60
  (`ReservedUnits.SweptAndPaidWithinTheHour`).
- A comment at src/modules/hooks/service/hooks.service.ts:201 says that only one of many
  deliveries with one key is accepted. `saveSepayWebhook` rewrites the inbox row to PENDING
  each time, so the early return at line 202 cannot fire (`Webhook.Deliver`). What keeps
  stock from being taken twice is the intent's status and a clock that never goes back;
  with a clock that does, it is taken twice (`WebhookRuns.ClockGoingBackTakesTwice`).
- An order ends with exactly its items taken if and only if the first in-time delivery that is
  not short is exact, meets no fault and comes after the worker has written the items
  (`WebhookUnits.TakenIffFirstEnoughIsExact`). Paid before that, it is PAID and nothing is ever
  taken for it (`WebhookUnits.EarlyPaymentTakesNothing`).
- An overpayment settles the intent without taking stock, and the next poll shows the
  order as paid (`WebhookRuns.OverageThenPollPaysWithoutStock`).
- A full payment whose stock writes fail leaves the intent in SUCCESS and the order waiting;
  the next poll shows it as paid, with its stock untouched or even increased
  (`WebhookRuns.RollbackThenPollPaysWithoutStock`).
- A guest cart assigned to a user keeps its session and is deleted by the next merge of
  that session (`CartMerge.AssignedCartIsLostByNextMerge`).
- Cutting event scores to the top before order signals are merged takes a dropped object's
  event score out of its merged score; it changes no merged score if and only if no event
  score is negative and at most 20 are positive (`Scores.CutIsHarmlessIff`). Both penalties
  and the scores beyond rank 20 are forgotten (`Scores.CutBeforeMergeForgetsPenalties`,
  `Scores.CutForgetsRank21`).

## Assumptions

- The items of an order are written once, by a job that runs once
  (src/queue/checkout/checkout.queue.ts:12).
- Quantities are positive, row ids unique, prices whole VND. SHA-256 is injective.
- Orders and payment intents are keyed by the order code, which is the transfer content
  (src/modules/payment/service/payment.service.ts:54-58) and unique; `content` is already
  trimmed.
- Deliveries and polls are handled one at a time. Which of the two writes of
  `updateOrderDone` fails, if any, is a parameter of the delivery.
- Answers to queries are parameters constrained by what the query asks for.
- Times are integers in milliseconds, passed in by the caller.

## Model

| member | source | states |
|---|---|---|
| RedisReservation.NoOversell | src/modules/order/service/order.service.ts:194-224 | in every interleaving of seeds, atomic decrements of many items and later checks with a single-key restore, the units of a variant granted never exceed the value its counter was seeded with |
| RedisReservation.CounterLedger | src/modules/order/service/order.service.ts:194-224 | every seeded unit is in the counter, granted, in flight, or leaked by a refusal |
| RedisReservation.RefusalIsNeutralIffSingleItem | src/modules/order/service/order.service.ts:214-222 | a refused request leaves the counters as they were if and only if it asked for one variant |
| RedisReservation.RunKeepsInv | src/modules/order/service/order.service.ts:194-224 | the counter is its seed less what requests hold, and wins stay below the seed, on every run |
| RedisReservation.ReserveInRedis | src/modules/order/service/order.service.ts:194-224 | run alone, the Redis section grants exactly when every item fits; a refusal keeps every decrement but the one on the first short key |
| RedisReservation.Redis.EvalDecrBy | src/modules/order/service/order.service.ts:203-212 | the script lowers every key in order and replies with each counter as it left it |
| RedisReservation.Redis.SetNX | src/modules/order/service/order.service.ts:196-200 | seeds a counter only if it has no value |
| RedisReservation.DecrAllPointwise | src/modules/order/service/order.service.ts:203-212 | the script takes from each counter exactly the quantity requested of its variant |
| RedisReservation.DecrResultsPointwise | src/modules/order/service/order.service.ts:203-216 | on distinct variants the k-th reply is the counter before the script less the k-th quantity |
| RedisReservation.FirstShortage | src/modules/order/service/order.service.ts:215-222 | the check stops at the first negative reply and there is none before it |
| Inventory.BatchIsOneByOneInAnyOrder | src/modules/book/variant/repository/bookVariant.repository.ts:44-60 | on distinct variants the single CASE statement equals reserving the items one at a time in any order, and leaves unnamed rows alone |
| Inventory.BatchReservesAllIffAllFit | src/modules/book/variant/repository/bookVariant.repository.ts:44-60 | the batch reserves the whole request if and only if every item fits |
| Inventory.PaidThenRolledBackIsIdentity | src/modules/order/repository/order.repository.ts:230-312 | paid decrement and rollback increment cancel on every row, in both orders |
| Inventory.ReleaseCreditsStockAgain | src/modules/order/repository/order.repository.ts:206-216 | releasing a granted reservation restores `reserved` but adds the quantity to `stock`; the rows come back if and only if no item names a row |
| Inventory.ItemMapIsQuantity | src/modules/hooks/service/hooks.service.ts:160-165 | the quantity map of an order holds exactly the units its items ask for |
| Inventory.AddOrdersTotal | src/modules/order/service/order.service.ts:358-365 | the totals handed to `clearOrder` are the per-variant sums over all items of all orders found |
| Inventory.FindExpired | src/modules/order/repository/order.repository.ts:184-204 | finds each unpaid order past its expiry, every one of them, once |
| Inventory.FoundOrders | src/modules/order/repository/order.repository.ts:184-190 | a sweep finds exactly the orders waiting for payment, with payment pending, that expire within the hour or have expired |
| Inventory.ImportRow | src/modules/admin/book-variant/repository/admin-book-variant.repository.ts:75-88 | an import adds to each row's stock the sum of its lines, repeated lines included, and leaves `reserved` alone |
| Inventory.Database.UpdateReservedByIds | src/modules/book/variant/repository/bookVariant.repository.ts:44-60 | one guarded statement for all items; an empty list fails and changes nothing |
| Inventory.Database.DecrementVariantsStock | src/modules/order/repository/order.repository.ts:230-270 | takes the quantities from both columns, or throws on a zero quantity and changes nothing |
| Inventory.Database.IncrementVariantsStock | src/modules/order/repository/order.repository.ts:272-312 | puts the quantities back into both columns, or throws on a zero quantity and changes nothing |
| Inventory.Database.IncrementStockById | src/modules/admin/book-variant/repository/admin-book-variant.repository.ts:75-88 | each row's stock grows by the sum of its imported lines |
| Inventory.Database.ClearOrder | src/modules/order/repository/order.repository.ts:206-228 | releases the totals per variant; an order still waiting that expires within the hour becomes CANCELLED with payment EXPIRED, every other order stays as it was |
| Inventory.Database.CleanOrder | src/modules/order/service/order.service.ts:347-366 | a sweep moves, per variant, the sum over all expired orders' items and cancels as EXPIRED every order still waiting that expires within the hour; it does nothing when none was found |
| Inventory.Database.ReserveInDatabase | src/modules/order/service/order.service.ts:225-234 | the fallback accepts when every row read had something left and then runs the guarded batch |
| InventoryLedger.ColumnsAreLedgerBalance | src/modules/order/repository/order.repository.ts:206-312 | over every run both columns equal their first values plus the exact ledger of granted, paid, rolled-back, released and imported units, and `reserved <= stock` is kept |
| InventoryLedger.StepBalances | src/modules/order/repository/order.repository.ts:206-312 | the same for one step of any kind |
| InventoryLedger.OrderAfter | src/modules/order/repository/order.repository.ts:218-226 | what one step of any kind does to an order's status and payment status; its expiry never changes |
| InventoryLedger.PlacedOrder | src/modules/order/repository/order.repository.ts:184-190 | a new order waits unpaid for 100 minutes |
| InventoryLedger.SuccessOnlyByMarkPaid | src/modules/hooks/repository/hooks.repository.ts:124-144 | over any run an order gets payment SUCCESS only by being marked paid, never by a sweep |
| InventoryLedger.ReleasedAtMostOnce | src/modules/order/service/order.service.ts:347-366 | when sweeps do not overlap, no order's items are released twice, whatever falls between a sweep's read and its clear |
| InventoryLedger.ReleasedOncePerClearedFind | src/modules/order/service/order.service.ts:347-366 | over any run, however sweeps overlap, an order is released once for each cleared sweep that had found it |
| InventoryLedger.ReleasedTwiceIffFoundTwice | src/modules/order/service/order.service.ts:347-366 | from the start, an order is released twice if and only if two cleared sweeps had found it |
| InventoryLedger.OverlapReleasesTwiceIffExpiredAtBothReads | src/modules/order/service/order.service.ts:347-366 | two sweeps that both read before either clears release an order twice if and only if it was expired and unpaid at both reads |
| InventoryLedger.OverlappingSweepsReleaseTwice | src/modules/order/service/order.service.ts:347-366 | a witness of that, which also drives `reserved` below zero |
| InventoryLedger.CancelledUnreleasedIffMissedByTheRead | src/modules/order/repository/order.repository.ts:184-228 | a sweep cancels a waiting order without counting it as released if and only if it expired after the read or had a payment status other than PENDING |
| ReservedUnits.ReservedIsHeldIffAllInTurn | src/modules/order/repository/order.repository.ts:206-312 | throughout a run `reserved` is the sum of what orders and checkouts were granted and have not given up, if and only if each step takes an order's units only where they are held, and returns or grants them only where they are not |
| ReservedUnits.ReservedIsHeldPlusDrift | src/modules/order/repository/order.repository.ts:206-312 | over any run `reserved` is what is held plus exactly what the steps out of turn moved |
| ReservedUnits.ReservedNonNegativeIff | src/modules/order/repository/order.repository.ts:206-312 | the column ends non-negative if and only if what left it out of turn is no more than what is still held; with every step in turn it always does |
| ReservedUnits.InTurnIffNoDrift | src/modules/order/repository/order.repository.ts:206-312 | a step moves `reserved` past what is held exactly when it is out of turn |
| ReservedUnits.PaymentWithoutHolding | src/modules/hooks/service/hooks.service.ts:156-171 | paying an order that holds nothing keeps `reserved` non-negative if and only if the others hold at least its units |
| ReservedUnits.UnreservedPaymentKeepsReservedIffOthersHoldEnough | src/queue/checkout/processors/checkout.processor.ts:123-145 | a guest's transfer order, never reserved, keeps `reserved` non-negative when paid if and only if other orders hold that much |
| ReservedUnits.SweptThenPaidKeepsReservedIffOthersHoldEnough | src/modules/order/service/order.service.ts:347-366 | the same for an order that a sweep has taken before it is paid |
| ReservedUnits.SweptAndPaidWithinTheHour | src/modules/order/repository/order.repository.ts:184-190 | an order reserved, swept between minutes 40 and 60 and then paid leaves `reserved` below zero |
| ReservedUnits.CancelledStillHoldingIffNothingWasRead | src/modules/order/repository/order.repository.ts:184-228 | a clear cancels a waiting order and leaves its units reserved if and only if the order is past its expiry by then and the sweep had not read items of it, whatever happened since the read |
| ReservedUnits.SweptBeforeItemsKeepsUnits | src/modules/order/service/order.service.ts:347-366 | an order that reserved at checkout and is read by a sweep before its items are written is cancelled with its units still reserved |
| ReservedUnits.EarlyPaymentKeepsUnitsReserved | src/modules/hooks/service/hooks.service.ts:156-171 | an order paid before its items are written keeps its units in `reserved` |
| DeferredReservation.DeferredBatchReservesAll | src/queue/checkout/processors/checkout.processor.ts:138-153 | as long as nobody has taken the database path, the worker's guarded batch reserves every request that Redis granted whole, in any order and between any payments, rollbacks, sweeps and imports |
| DeferredReservation.WorkerReservesWholeIff | src/queue/checkout/processors/checkout.processor.ts:138-153 | over every run, with requests falling through to the database path or not, the worker's batch reserves a granted request whole if and only if the ledger so far leaves room for each of its items |
| DeferredReservation.GrantedShortByFallbackAtMost | src/modules/order/service/order.service.ts:194-234 | a granted item is short, when the worker gets to it, by no more than the database path has reserved of it |
| DeferredReservation.AvailableByLedger | src/modules/order/repository/order.repository.ts:206-312 | what a row has left is what it started with, plus imports and twice the releases, less what was granted |
| DeferredReservation.FallThroughSkipsGranted | src/modules/order/service/order.service.ts:214-234 | of five units Redis grants three, a refused request for four passes the fallback and reserves four, and the worker skips the granted order |
| DeferredReservation.OthersNeverShrink | src/modules/order/repository/order.repository.ts:206-312 | no statement but a reservation lowers `stock - reserved` |
| DeferredReservation.RunKeepsInv | src/modules/order/service/order.service.ts:194-224 | on every run a row still has whatever was read of it and whatever its counter started with, less what the worker and the database path have reserved since |
| Checkout.Reserve | src/modules/order/service/order.service.ts:194-234 | accepted if and only if no item asks for more than its living counter, or stock less reserved when it has none, or there are items and every row read had something left; in the second case the batch runs at once and the worker is told not to reserve; a refusal keeps every decrement but that of the first short item |
| Checkout.SeededCounter | src/modules/order/service/order.service.ts:196-200 | after seeding, a living counter has kept its value and a new one holds stock less reserved of the row read |
| Checkout.OneUnitLeftAcceptsAnyQuantity | src/modules/order/service/order.service.ts:225-234 | with one unit left a request for any quantity is accepted and reserves nothing |
| Webhook.Deliver | src/modules/hooks/service/hooks.service.ts:188-209 | the already-processed reply is never given, because the inbox row was just rewritten as pending |
| WebhookRuns.OnlyFullPaymentsTouchOrders | src/modules/hooks/service/hooks.service.ts:214-325 | a delivery that is not a full payment changes no order |
| WebhookRuns.FullPaymentSettlesItsOrder | src/modules/hooks/service/hooks.service.ts:141-179 | a full payment gives its order payment SUCCESS and status PAID, or PENDING_PAYMENT when its later writes fail, and changes no other order |
| WebhookRuns.DeliveryIsRecorded | src/modules/hooks/service/hooks.service.ts:214-327 | every delivery adds one transaction with its order, amount and verdict; only a full payment restates earlier ones, those of its order |
| WebhookRuns.DeliveryMarksIntent | src/modules/hooks/service/hooks.service.ts:261-334 | only the intent paid for changes: to EXPIRED when late, to SUCCESS when enough |
| WebhookRuns.DeliveryClosesInbox | src/modules/hooks/repository/hooks.repository.ts:75-96 | the delivery's inbox row is done when its content is missing or its intent is then settled, failed otherwise |
| WebhookRuns.DeliveryCountsItsAttempt | src/modules/hooks/service/hooks.service.ts:195-212 | the delivery's inbox row has one more attempt, and no other row changes |
| WebhookRuns.DeliveryReplies | src/modules/hooks/service/hooks.service.ts:188-346 | which reply is given in which case; without an event id nothing is written |
| WebhookRuns.PaidStaysPaid | src/modules/hooks/service/hooks.service.ts:261-334 | once its intent is settled or past its expiry, a PAID order stays PAID over every run with a clock that never goes back |
| WebhookRuns.CheckoutOpens | src/modules/payment/repository/payment-intent.repository.ts:48-64 | a checkout opens an unpaid order and an intent good for an hour |
| WebhookRuns.PurgeRemovesStale | src/modules/payment/repository/payment-intent.repository.ts:66-78 | a purge removes exactly the pending intents past the cutoff whose order still waits |
| Webhook.Poll | src/modules/hooks/service/hooks.service.ts:348-373 | the answer is the intent's status, or not-found without intent or, for a settled one, without order; a poll that reports SUCCESS leaves the order PAID with payment SUCCESS, any other changes nothing, and no poll touches stock, intents or other orders |
| Webhook.HooksService.HandleSepayWebhook | src/modules/hooks/service/hooks.service.ts:188-346 | the writes of one delivery, branch by branch, have the effect that the run theorems are about |
| Webhook.HooksService.FinishPaidOrder | src/modules/hooks/service/hooks.service.ts:155-179 | takes the stock and marks the order; a failing write puts the order back to PENDING_PAYMENT and adds the quantities to the columns whether or not they were taken; without items no stock statement runs |
| Webhook.HooksService.GetPaymentStatus | src/modules/hooks/service/hooks.service.ts:348-373 | the poll's writes have the effect that the run theorems are about |
| Webhook.HooksService.SaveSepayWebhook | src/modules/hooks/repository/hooks.repository.ts:27-51 | a new or repeated delivery leaves its inbox row pending with its attempts kept |
| Webhook.HooksService.UpdateWebhookStatus | src/modules/hooks/repository/hooks.repository.ts:75-96 | sets status and attempts of one inbox row |
| Webhook.HooksService.MarkOrderAndPaymentSuccess | src/modules/hooks/repository/hooks.repository.ts:124-163 | the order becomes PAID and every transaction of it SUCCESS, nothing else changes |
| Webhook.HooksService.MarkPaymentIntent | src/modules/payment/repository/payment-intent.repository.ts:80-89 | overwrites the status of the intent with this code, if there is one |
| WebhookRuns.StockTakenAtMostOnce | src/modules/hooks/service/hooks.service.ts:141-346 | with a clock that never goes back no order's stock is taken twice, for any deliveries, repeats, amounts, polls and purges |
| WebhookRuns.ClockGoingBackTakesTwice | src/modules/hooks/service/hooks.service.ts:261-282 | a delivery stamped after expiry moves the intent out of SUCCESS, and one stamped before it then takes the stock again |
| WebhookUnits.TakenIffFirstEnoughIsExact | src/modules/hooks/service/hooks.service.ts:141-334 | with a clock that never goes back, the units taken less those restored end as exactly the order's items if and only if the first in-time delivery that is not short carries exactly the total, meets no fault and comes after the items were written, or the order never gets items |
| WebhookUnits.UnitsTakenByFirstEnough | src/modules/hooks/service/hooks.service.ts:141-334 | the exact units in every case: none without such a delivery, on an overpayment or on a rolled-back decrement, the items written by then when it succeeds, and minus those when the decrement is what failed |
| WebhookUnits.FollowRun | src/modules/hooks/service/hooks.service.ts:141-334 | for any clock, the units taken for an order and the number of times its stock statement runs, computed from the events alone |
| WebhookUnits.SecondTakingNeedsLate | src/modules/hooks/service/hooks.service.ts:261-282 | stock is taken a second time only after a delivery stamped past the expiry that an exact in-time one follows |
| WebhookUnits.ColumnsFollowCharges | src/modules/hooks/service/hooks.service.ts:155-179 | in a run whose deliveries are all for one order both columns move by exactly those units |
| WebhookUnits.EarlyPaymentTakesNothing | src/modules/order/repository/order.repository.ts:230-235 | a payment that arrives before the items are written leaves the order PAID and all stock untouched for good |
| WebhookUnits.NewOrderStands | src/modules/hooks/service/hooks.service.ts:223-270 | after any history a new order waits for its payment with nothing taken, so the results above apply to it |
| WebhookRuns.OverageThenPollPaysWithoutStock | src/modules/hooks/service/hooks.service.ts:306-315 | an overpaid order is PAID after the next poll with its stock untouched |
| WebhookRuns.RollbackThenPollPaysWithoutStock | src/modules/hooks/service/hooks.service.ts:167-179 | a paid order whose stock writes were rolled back is PAID after the next poll, with its stock untouched, or increased when the decrement was what failed |
| WebhookRuns.InboxDoneIffIntentSuccess | src/modules/hooks/service/hooks.service.ts:261-334 | after a delivery for a known order its inbox row is done if and only if the intent is SUCCESS |
| WebhookRuns.SuccessIsBackedByMoney | src/modules/hooks/service/hooks.service.ts:261-373 | in every reachable state an intent in SUCCESS and an order marked PAID has a recorded transaction of at least the total |
| WebhookRuns.WhoPays | src/modules/hooks/service/hooks.service.ts:327-368 | an order becomes PAID only through an exact delivery or a poll of a successful intent |
| WebhookRuns.ColumnsFollowMovements | src/modules/hooks/service/hooks.service.ts:155-179 | over any run a variant's columns move by exactly the quantities taken and restored |
| WebhookRuns.DeliveriesAreAllRecorded | src/modules/hooks/service/hooks.service.ts:210-334 | every delivery with an event id adds one transaction with its full amount, and the inbox row counts its deliveries |
| WebhookRuns.StepMovesIntent | src/modules/hooks/service/hooks.service.ts:261-334 | an intent changes status only through a delivery for it: to EXPIRED when late, to SUCCESS when enough |
| VersionedCache.ReadsSeeBumpedWrites | src/modules/cache-version/service/cache-version.service.ts:31-45 | over every interleaving a call that read its version after k bumps returns a database state no older than the k-th commit, and one that includes every writer whose bump had happened |
| VersionedCache.RunKeepsInv | src/modules/cache-version/service/cache-version.service.ts:31-71 | entries, in-flight calls and results stay fresh under commits, bumps, late stores and expiry |
| VersionedCache.BumpKeepsInv | src/modules/cache-version/service/cache-version.service.ts:69-71 | a bump after a commit keeps every older entry truthful for the version it is stored under |
| VersionedCache.CommitWithoutBumpIsNotSeen | src/modules/admin/book/service/admin-book.service.ts:280-338 | between a commit and its bump a reader still gets the state before the commit |
| VersionedCache.DataKeyInjective | src/modules/cache-version/service/cache-version.service.ts:26-29 | data keys of different namespaces or versions never collide |
| VersionedCache.VersionKeyInjective | src/modules/cache-version/service/cache-version.service.ts:10-12 | version keys of different namespaces never collide |
| VersionedCache.VersionKeyIsNoDataKey | src/modules/cache-version/service/cache-version.service.ts:10-29 | a version key is never a data key |
| VersionedCache.KeyTexts | src/modules/cache-version/service/cache-version.service.ts:10-29 | the two keys of a namespace, letter by letter |
| VersionedCache.CacheVersionService.GetVersionKey | src/modules/cache-version/service/cache-version.service.ts:14-24 | returns the version, which is set to 1 when missing |
| VersionedCache.CacheVersionService.WithCache | src/modules/cache-version/service/cache-version.service.ts:31-45 | a hit returns the cached value, a miss returns and caches the factory's; no other namespace changes |
| VersionedCache.CacheVersionService.BumpVersion | src/modules/cache-version/service/cache-version.service.ts:69-71 | increments the version of this namespace only |
| CategoryForest.BuildCatalogCategoryTree | src/modules/book/catalog/mapper/catalog.mapper.ts:35-68 | for any rows with unique ids the build ends; a named row occurs once if its chain of named parents ends at a parentless row and otherwise not at all; roots and siblings follow the rows' own sort order (zero when missing), then id |
| CategoryForest.AddNodes | src/modules/book/catalog/mapper/catalog.mapper.ts:38-52 | one node for every row with a name that is not empty and for no other, with the row's parent, name and sort order |
| CategoryForest.LinkNodes | src/modules/book/catalog/mapper/catalog.mapper.ts:54-64 | every children array lists exactly the node's children, each once; the roots are the parentless nodes |
| CategoryForest.SortCategoryTree | src/modules/book/catalog/mapper/catalog.mapper.ts:214-223 | sorts the list and every children array below it, loses nothing, and ends although the rows may contain cycles |
| CategoryForest.ForestContents | src/modules/book/catalog/mapper/catalog.mapper.ts:54-67 | a node's count in the forest is one if its parent chain ends and zero otherwise |
| CategoryForest.PreorderCount | src/modules/book/catalog/mapper/catalog.mapper.ts:54-67 | below a list of siblings a node occurs once if its path passes through the list, else not |
| CategoryForest.PathUnique | src/modules/book/catalog/mapper/catalog.mapper.ts:54-64 | only one way leads down to a node |
| CategoryForest.PathBounded | src/modules/book/catalog/mapper/catalog.mapper.ts:220-222 | a way down from a root never repeats a node, so the recursion is no deeper than the number of nodes |
| DeviceSlots.ActiveIffAmongLastFour | src/modules/auth/service/user-device.service.ts:13-66 | after any history of logins at increasing times a device is active if and only if fewer than four distinct others logged in after it |
| DeviceSlots.SlotsAreFilled | src/modules/auth/service/user-device.service.ts:37-42 | the number of active devices is the number of distinct ones seen, up to four |
| DeviceSlots.RunFollowsSpecification | src/modules/auth/service/user-device.service.ts:13-66 | count-then-revoke-oldest follows the pure most-recently-used list |
| DeviceSlots.RankIsDistinctSince | src/modules/auth/service/user-device.service.ts:13-66 | before a device in that list come exactly the distinct devices since its last login |
| DeviceSlots.FirstSeenIsKept | src/modules/auth/service/user-device.service.ts:33-52 | a device keeps the time it was first seen through revocation and return |
| DeviceSlots.UserDevices.UpsertDeviceOnLogin | src/modules/auth/service/user-device.service.ts:13-66 | a login refreshes an active device, or makes room and re-activates or creates it with its first-seen time kept; the user's other devices keep their times and are at most revoked, other users' are untouched |
| DeviceSlots.UserDevices.RevokeOldestActiveDevice | src/modules/auth/repository/user-device.repository.ts:32-47 | revokes an active device that no other active one was last seen before |
| ResendThrottle.AtMostNinePerDay | src/modules/auth/service/auth.service.ts:215-266 | in every run any closed window of 24 hours holds at most nine register emails |
| ResendThrottle.NineIsReached | src/modules/auth/service/auth.service.ts:215-266 | nine is reached, so the bound is exact |
| ResendThrottle.TenSpanMoreThanADay | src/modules/auth/service/auth.service.ts:223-243 | ten emails in a row span more than a day |
| ResendThrottle.RunKeepsInv | src/modules/auth/service/auth.service.ts:223-257 | an email with five others in the day before it comes five hours after the last of them, on every run |
| ResendThrottle.LatestSince | src/modules/email-outbox/repository/email-outbox.repository.ts:74-83 | the newest register email of the window, if there is one |
| ResendThrottle.RegisterMails.CountOtpRegisterByEmailSince | src/modules/email-outbox/repository/email-outbox.repository.ts:64-72 | counts the rows of the window |
| ResendThrottle.RegisterMails.RegisterAccount | src/modules/auth/service/auth.service.ts:140-148 | the first email goes out once, with the account |
| ResendThrottle.RegisterMails.ResendEmail | src/modules/auth/service/auth.service.ts:215-266 | refuses exactly when five were recorded in a day and the latest is younger than five hours; missing or verified accounts get nothing |
| ResendThrottle.BlockedIff | src/modules/auth/service/auth.service.ts:223-237 | the refusal is exactly that the fifth email from the end is within 24 hours and the last within five |
| CheckoutTotals.LengthCheckIsExact | src/modules/order/service/order.service.ts:187-192 | as many rows as items come back if and only if the ids are pairwise distinct and all exist |
| CheckoutTotals.QuoteCheckout | src/modules/order/service/order.service.ts:179-245 | the subtotal over rows and the quantity map is the sum over the requested items at catalog prices, and the total adds the shipping fee |
| CheckoutTotals.RowsSumToItems | src/modules/order/service/order.service.ts:240-245 | summing rows in whatever order they come gives the sum over the items |
| CheckoutTotals.SubtotalAddsPriceTimesQuantity | src/modules/order/service/order.service.ts:240-243 | one more item adds its price times its quantity |
| Snapshots.ContentDeterminesVariant | src/utils/generateContentHash.util.ts:10 | the hashed string determines ISBN, id, format and price, even if the ISBN contains hyphens |
| Snapshots.ContentText | src/utils/generateContentHash.util.ts:10 | the content of one variant, letter by letter |
| Snapshots.SameHashSameSnapshot | src/utils/generateContentHash.util.ts:10-11 | snapshots with one hash are equal, price and all |
| Snapshots.InsertAllKeeps | src/modules/book/snapshot/repository/book-snapshot.repository.ts:10-20 | inserting with duplicates skipped keeps every earlier row and makes every hash present once |
| Snapshots.PricesAreKept | src/modules/book/snapshot/repository/book-snapshot.repository.ts:10-20 | no list of later jobs, at whatever prices, changes the snapshot an item is linked to |
| Snapshots.LinkItems | src/queue/checkout/processors/checkout.processor.ts:98-119 | every item is linked to the row with its hash and charges price times quantity |
| Snapshots.TakeSnapshots | src/queue/checkout/processors/checkout.processor.ts:75-90 | one snapshot per variant, as it was priced when the job was queued |
| Snapshots.CheckoutWorker.CreateMany | src/modules/book/snapshot/repository/book-snapshot.repository.ts:10-20 | appends the rows whose hash is new |
| Snapshots.CheckoutWorker.ProcessCheckout | src/queue/checkout/processors/checkout.processor.ts:61-162 | the order's items carry the prices charged and add up to the subtotal; all are reserved unless the database path already did or a guest pays by transfer |
| Scores.TopKKeepsTheBest | src/modules/user-event/service/user-event.service.ts:348-361 | at most max(1, k) positive entries are kept, in descending order, and no positive entry left out beats a kept one |
| Scores.MergedTopIsBest | src/modules/user-event/service/user-event.service.ts:222-250 | after order signals are merged every object has its event score plus the sum of its signals, dated by the latest, and the best 20 are kept |
| Scores.OrderOfEventsDoesNotMatter | src/modules/user-event/service/user-event.service.ts:253-342 | any arrangement of the same events gives every object the same entry |
| Scores.EntryAfterIsSum | src/modules/user-event/service/user-event.service.ts:317-342 | an entry is the plain sum of everything scored for the object, with the latest timestamp |
| Scores.BuildScores | src/modules/user-event/service/user-event.service.ts:253-297 | the top 20 of the scores the events contribute, which are the best objects by their events' points |
| Scores.BuildVariantScores | src/modules/user-event/service/user-event.service.ts:253-274 | each kept variant carries the sum of the points of all its view, cart and removal events and the date of the latest; at most 20, positive, in order by score then date, and none left out has more points than one kept |
| Scores.BuildOrderScores | src/modules/user-event/service/user-event.service.ts:276-297 | the same for orders and their checkout, order and payment events |
| Scores.EveryEventCounts | src/modules/user-event/service/user-event.service.ts:253-342 | an object's score is the sum over all its scored events of weight times decay by age, the numbers written out |
| Scores.ScoreIsPoints | src/common/constants/event-type.constant.ts:17-49 | the points of an event by its kind and its age in milliseconds |
| Scores.OrderIsByScoreThenDate | src/modules/user-event/service/user-event.service.ts:348-356 | the sort puts a higher score first, and of equal scores the later date |
| Scores.ItemSignalsAreDated | src/modules/user-event/service/user-event.service.ts:186-207 | every line with a snapshot signals it with the later of its own and the order's date, and nothing else does |
| Scores.VariantSignalsAreDated | src/modules/user-event/service/user-event.service.ts:222-248 | a signal moved to its variant keeps its date, and every signal with a known snapshot is moved |
| Scores.UpsertScore | src/modules/user-event/service/user-event.service.ts:317-342 | adds to the object's entry or creates it; no other entry changes |
| Scores.MergeOrders | src/modules/user-event/service/user-event.service.ts:174-251 | returns the variants unchanged when there is no signal or no known snapshot, and else the top 20 of the merged scores |
| Scores.EarlyReturnsAgree | src/modules/user-event/service/user-event.service.ts:174-220 | each early return is what the full path would have given |
| Scores.SignalsAddUpToShares | src/modules/user-event/service/user-event.service.ts:186-248 | the signals merged into a variant add up to the orders' scores times the units bought of it, each line counting at least once |
| Scores.CutAgreesIffKept | src/modules/user-event/service/user-event.service.ts:222-274 | cutting before the merge leaves an object's merged score right if and only if it had no event score, a zero one, or was kept; else exactly the event score is lost |
| Scores.CutIsHarmlessIff | src/modules/user-event/service/user-event.service.ts:222-274 | the cut changes no merged score if and only if no event score is negative and at most 20 are positive |
| Scores.BeyondTopIsForgotten | src/modules/user-event/service/user-event.service.ts:222-274 | in a ranking of positive scores whatever stands beyond rank 20 comes back with its signals alone |
| Scores.CutForgetsRank21 | src/modules/user-event/service/user-event.service.ts:222-274 | an instance with 21 objects |
| Scores.CutBeforeMergeForgetsPenalties | src/modules/user-event/service/user-event.service.ts:253-274 | an object dropped with a negative score comes back with any positive signal, although the two together may be negative |
| Scores.AgeFadesScores | src/common/constants/event-type.constant.ts:17-49 | age only moves an event's score towards zero, and never below a fifth of its weight |
| CartMerge.CartService.MergeCart | src/modules/cart/service/cart.service.ts:343-402 | without a user cart the guest cart is handed over, its items and session kept; with both, the user's becomes the pointwise sum, every cart of the session is deleted and no other changes; the count is that of the guest's variants the user had none of |
| CartMerge.MergeItems | src/modules/cart/service/cart.service.ts:368-392 | the merged lines carry both quantities and the count is exact |
| CartMerge.MergeConservesIffCartsAreApart | src/modules/cart/service/cart.service.ts:404-409 | the user keeps a cart, with the total of both, if and only if that cart is not tied to the guest session |
| CartMerge.AssignedCartIsLostByNextMerge | src/modules/cart/repository/cart.repository.ts:53-100 | a guest cart once assigned to its user is found as both carts by the next merge and deleted |
| CartMerge.CombinedConservesTotal | src/modules/cart/service/cart.service.ts:376-392 | the pointwise sum has the total quantity of both carts |
| CartMerge.UpsertsCombine | src/modules/cart/repository/cart.repository.ts:64-89 | upserting the merged lines turns the user's cart into the pointwise sum |
| CartMerge.CartService.UpdateCart | src/modules/cart/repository/cart.repository.ts:64-89 | one upsert per line, in one cart only |
| CartMerge.CartService.RemoveByGuestSession | src/modules/cart/repository/cart.repository.ts:91-100 | deletes exactly the carts of the session |
| Addresses.CreateKeepsInv | src/modules/user/repository/user-address.repository.ts:22-55 | creating keeps exactly one default per user with an address, and other users' addresses |
| Addresses.PromoteGivesInv | src/modules/user/repository/user-address.repository.ts:126-141 | clearing and setting the flag leaves the target as the one default |
| Addresses.DeleteKeepsInv | src/modules/user/repository/user-address.repository.ts:145-208 | deleting, with the flag handed to the newest address left, keeps the invariant |
| Addresses.UserAddresses.Create | src/modules/user/repository/user-address.repository.ts:22-55 | a new address is the default if and only if it is the only active one |
| Addresses.UserAddresses.Update | src/modules/user/repository/user-address.repository.ts:57-109 | changes the descriptive fields of an active address of the user, and only those |
| Addresses.UserAddresses.SetDefault | src/modules/user/repository/user-address.repository.ts:111-143 | moves the flag to an active address of the user, or reports that there is none; nothing but flags changes |
| Addresses.UserAddresses.FindNewest | src/modules/user/repository/user-address.repository.ts:177-184 | the active address latest by creation time, then id |
| Addresses.UserAddresses.SoftDelete | src/modules/user/repository/user-address.repository.ts:145-208 | deletes the address and hands the flag on if it had it; nothing else of any address changes |
| UniqueSlug.BuildUniqueSlug | src/modules/admin/book/service/admin-book.service.ts:513-536 | ends for every finite table with the first free name of base, base-2, base-3 and so on, within one more try than the language has slugs |
| UniqueSlug.FirstNames | src/modules/admin/book/service/admin-book.service.ts:518-534 | the names tried are base, base-2 and base-3 |
| UniqueSlug.CandidatesDiffer | src/modules/admin/book/service/admin-book.service.ts:533-534 | no name is tried twice |
| UniqueSlug.TriedAreDistinct | src/modules/admin/book/service/admin-book.service.ts:521-535 | n tries test n different names |
| LikePattern.PatternMatchesSubstring | src/modules/book/catalog/repository/catalog.repository.ts:1064-1066 | the pattern of any keyword matches exactly the texts that contain it literally |
| LikePattern.EscapedIsLiteral | src/modules/book/catalog/repository/catalog.repository.ts:1064-1066 | an escaped keyword matches itself and nothing else, whatever wildcards it contains |
| LikePattern.WildcardsAreWild | src/modules/book/catalog/repository/catalog.repository.ts:1029-1037 | unescaped, the underscore stands for one character and the percent sign for any text |
| LikePattern.SearchFindsLiteralKeyword | src/modules/book/catalog/repository/catalog.repository.ts:1029-1037 | a book is found if and only if its title or description contains the keyword as typed |
| Decimal.PrintInjective | src/utils/generateContentHash.util.ts:10 | different numbers print differently |
| Decimal.SplitAtLast | src/utils/generateContentHash.util.ts:10 | a separator that does not occur to its right cuts a composed string in one place only |

## Left out

- RedisReservation.NoOversell: covers one lifetime of a counter key; re-seeding after its TTL of one hour is not modelled.
- VersionedCache.ReadsSeeBumpedWrites: starts from an initialised version key and follows one namespace; the non-atomic first initialisation, the slug-keyed detail cache, which is never bumped, and falsy cached values, which count as misses, are not modelled.
- CategoryForest.SortCategoryTree: the children arrays are passed as a map of lists and returned, not sorted in place in heap objects; aliasing is not captured.
- Webhook.HooksService.HandleSepayWebhook: deliveries run one at a time, and apart from the rollback of the stock writes every write succeeds; intents without an expiry date and transactions' payload fields are not modelled.
- ReservedUnits.ReservedIsHeldIffAllInTurn: follows one variant at a time, and orders are settled by transfer only.
- Webhook.HooksService.FinishPaidOrder: the failed pair of writes is a parameter; a rollback that fails itself is not modelled.
- DeviceSlots.ActiveIffAmongLastFour: logins of one user have different times and do not overlap; with equal times any oldest device may be revoked.
- ResendThrottle.AtMostNinePerDay: requests for one address do not overlap.
- Scores.BuildScores: scores are real numbers, so floating-point rounding is not captured; object ids are keys with one spelling each, and the clock is read once per build instead of once per event.
- Snapshots.CheckoutWorker.ProcessCheckout: the guest's address row and the deletion of the order when a write fails are not modelled.
- CartMerge.CartService.MergeCart: overlapping merges are not modelled, nor whether the nested item upserts restamp the user's cart.
- Addresses.UserAddresses.Update: the descriptive fields are one text.
- LikePattern.PatternMatchesSubstring: collation, case folding, FULLTEXT mode and the normalisation of the keyword are not modelled.
- LikePattern.SearchFindsLiteralKeyword: takes the escape character as given; how MySQL reads the quoted backslash of the ESCAPE clause depends on its backslash mode, which is not modelled.
- UniqueSlug.BuildUniqueSlug: how the base slug is derived from a title, and two writers racing for one slug, are not modelled.
- The `available` column and free-form status changes by an administrator: their form is not visible in the source.
- The recommendation cards built from the scores: lookups in tables of other users' orders.
- Price adjustment and the other cart operations: single unguarded writes.
- Controllers, guards, mail transport, storage and other outside services: no invariant of their own.
