# Verified model of the order platform

This project models the order saga of a microservice shop (order, inventory and payment services joined by
transactional outboxes and Kafka), the time-based state machines around it (rate limiters, distributed lock, login
lockout, refresh-token rotation), and the catalog's read side (keyset paging, product cache). It proves what holds in
every run, not only in one call.

Check everything with `dafny verify dfyconfig.toml`.

## How it is organised

| file | part of the system |
|---|---|
| `Common.dfy` | options, sums over finite maps, counting |
| `Events.dfy`, `Ledger.dfy` | message payloads and item demand; stock-ledger rows and what they hold |
| `OrderSaga.dfy`, `Inventory.dfy`, `Payment.dfy`, `Consumers.dfy` | the three services and their Kafka consumers |
| `Timeouts.dfy`, `Overload.dfy` | the timeout sweep over time: the bound within which it reaches a saga, and the load from which it need not |
| `System.dfy` | all services, their relays and the network as one step system, and its inductive invariant |
| `Guarantees.dfy`, `Accounts.dfy` | the cross-service theorems about every run; money and stock arithmetic of the whole |
| `Transport.dfy` | which steps may follow a run, and what every delivered message and marked row goes back to |
| `Delivery.dfy`, `Stranding.dfy` | what losing a message does: which orders can still be released, completed, or are stranded |
| `Relay.dfy`, `RelayPass.dfy` | the relays of the outbox table: no row is skipped, bounded progress past failing rows; a pass as steps of the whole system |
| `SlidingWindow.dfy`, `FixedWindow.dfy`, `Gateway.dfy` | the rate limiters |
| `Lock.dfy`, `Lockout.dfy`, `Sessions.dfy` | distributed lock, login lockout, refresh rotation and revocation |
| `Pagination.dfy`, `Listing.dfy`, `ProductCache.dfy` | the public product list, what it shows in terms of the table alone, and the product cache |

Each service that updates tables in place is a class whose fields are those tables. Every method is proved equal to a
next-state function of the old tables, and its contract also spells the new tables and messages out field by field,
without that function; the theorems are about those functions over arbitrary runs. Where the source loops, the function
does not: `ReserveNext` and `ReleaseNext` speak of the total demand per product while the methods go through the items one
by one and roll back, `Passed` speaks of all rows at once while `Relay` sends them one by one.

Every lemma is marked `{:induction false}`, so its proof is the body that is written and nothing else.

## Assumptions

- A handler's transaction is one atomic step. A handler that throws is a delivery that does not happen; consumers log and
  swallow errors (apps/order-service/src/order/order-consumer.service.ts:62-64), so its message may then be gone.
- The network is the set of messages on Kafka. Any of them may be delivered at any time, any number of times, in any
  order, and may be lost for good at any time, delivered or not.
- All services write to one outbox table, and the relay of each takes the rows of all (docs/setup.md:161). The
  whole-system model names a row by the service that wrote it and its place among that service's rows; a pass may take
  any of them. `RelayPass` ties this to passes over the one table, rows of services not modelled included.
- A relay pass picks up only rows without `sentAt`, sends, and then marks
  (apps/order-service/src/outbox/outbox-relay.service.ts:31-40). It may stop or fail anywhere and passes may overlap. Which
  rows a pass takes is open in the whole-system model; `Relay` has the batch of the oldest fifty. Rows of one transaction
  have one `createdAt` (apps/order-service/src/order/order.service.ts:71-78), and the query may put them in any order.
  The bounds for a row count from when every transaction that began no later than the row's has ended: `createdAt` is a
  transaction's start, so what is appended from then on is younger.
- A timeout step may hit any order at any time. This covers a sweep over a list that is out of date.
- A sweep fails its listed sagas one by one; an error while one is failed is rolled back and the next is tried.
- Quantities are at least 1 (apps/order-service/src/order/dto/create-order.dto.ts:14-16) and an upserted quantity is not
  negative. An order may have no items; lemmas that need an item say so.
- What the payment provider answers is arbitrary in every call.
- A refund command may reach the payment service from outside the three services at any time, or never.
- Amounts are integers in minor units. A limiter's limit and window are fixed per key, and the sliding window is
  positive. Clocks do not run backwards.
- Ids and tokens the system draws are fresh; everything a client presents is arbitrary. Hashes are injective.

## Where the code and its documentation disagree

The model follows the code.

- todos/order-service.todo.md:27 lists compensation on timeout. A timed-out saga emits no release. The exact condition
  under which a failed order's stock can come back is `Delivery.FailedOrderReleasableIff`.
- The same line lets a saga without an answer time out. A sweep takes any twenty due sagas, so under enough load one can
  be passed over for good: `Overload.EndsIff` gives the exact load, `Timeouts.OverdueSagaEnds` the bound below it.
- todos/order-service.todo.md:24 lists compensation after a declined payment. It is carried out only if no handler error
  or lost message meets the release command: nothing sends it again once its row is marked
  (`Delivery.ReleaseLostForGood`, `Delivery.ReleaseCanBeLost`, `Stranding.LostReleaseStrandsStock`). A lost completion
  event leaves a paid order running until it times out in the same way (`Delivery.CapturedOrderCompletableIff`,
  `Stranding.TimeoutStrands`).
- The refund operation is meant to be driven by `payment.refund` (apps/payment-service/src/payment/payment.service.ts:79),
  which no service sends (`Stranding.NobodySendsRefunds`). The exact condition under which a payment is refunded is
  `Stranding.RefundedIff`: a command from outside the three services. Without one, a timed-out order can keep its
  customer's money and its stock for good (`Stranding.StrandedForGood`, `Stranding.TimeoutStrandsStockAndMoney`).
- docs/inventory-stock-flow.md:46-48 says duplicate commands are ignored. `Inventory.DuplicateIgnoredIff` gives the
  exact condition; `Inventory.RefusalIsNotRemembered` is a duplicate that is not ignored.
- docs/auth-flow.md:118 calls the login limiter a sliding window, and so does the gateway's comment
  (apps/api-gateway/src/middleware/rate-limit.middleware.ts:11). Both are fixed windows. `FixedWindow.SlidingIff` says
  for which configurations a fixed window keeps the promise of a sliding one (a limit of one, and no other),
  `FixedWindow.ExcessStraddles` where in a history it breaks it, and `FixedWindow.TwiceTheLimit` by how much.
  None of the four configured limiters qualifies (`FixedWindow.LoginIsNotSliding`, `Gateway.RulesAreNotSliding`).
- docs/auth-flow.md:121 says reuse of an old token revokes the family. It does, but access tokens go on being accepted
  while the session is cached: `Sessions.RevokedStillCachedIff` says exactly when.
- A page cursor carries milliseconds and the createdAt column microseconds, so `nextCursor` can skip rows:
  `Pagination.FollowIsExactIff` says exactly when.
- An image upload does not invalidate the product cache: `ProductCache.StepCoherentIff` says that this is the only way
  to get a stale answer, and `ProductCache.AnswersAreFresh` bounds how stale it is.
- A cancelled order keeps its saga running: `OrderSaga.CancelledIsNotFinal`.

## Model

| member | source | states |
|---|---|---|
| Guarantees.CompletedIsPaidAndHeld | apps/order-service/src/saga/order-saga.service.ts:15-84 | in every run, under reordering, duplication and loss, a COMPLETED order has RESERVE rows for exactly its items, no RELEASE row, and a COMPLETED or REFUNDED payment for exactly its user and total |
| Stranding.SomeOrderCompletes | apps/order-service/src/saga/order-saga.service.ts:15-84 | a concrete run ends with such an order, its stock reserved and its payment captured |
| Guarantees.CompensationIsSound | apps/order-service/src/saga/order-saga.service.ts:86-126 | a release command, or a RELEASE row, exists only for an order whose stock was reserved and whose payment FAILED; stock behind a captured payment is never released; no payment exists without a reservation |
| Guarantees.StockIsConserved | apps/inventory-service/src/inventory/inventory.service.ts:109-204 | in every run, per product, reserved is the summed demand of the orders that hold stock, and also minus the sum of all RESERVE and RELEASE deltas |
| Guarantees.ReleaseNeverClamps | apps/inventory-service/src/inventory/inventory.service.ts:181-185 | no message a run can deliver makes the clamp of the release UPDATE fire |
| Guarantees.OwnEffectIsHeld | apps/inventory-service/src/inventory/inventory.service.ts:109-204 | what an order's own commands changed in reserved and available over a whole run is plus and minus what its ledger rows hold |
| Guarantees.ReserveReleaseCancel | apps/inventory-service/src/inventory/inventory.service.ts:109-204 | for any redelivery pattern and interleaving, an order's commands have moved its demand exactly once while it holds stock, and nothing once released |
| Guarantees.ReplaysChangeNothing | apps/inventory-service/src/inventory/inventory.service.ts:113-175 | once an order has a row of a kind, a command of that kind is ignored after any further steps; two reserves in a row never move stock twice |
| Guarantees.RowsPersist | apps/inventory-service/src/inventory/inventory.service.ts:146-191 | RESERVE and RELEASE rows are never lost in any run |
| Guarantees.ReserveReplayIff | apps/inventory-service/src/inventory/inventory.service.ts:113-166 | for a reserve delivered in any run and again after any steps: the first leaves a row exactly when there was one or everything fits, and the second is ignored exactly when the order has a row by then |
| Guarantees.ReleaseReplayIgnored | apps/inventory-service/src/inventory/inventory.service.ts:172-192 | a non-empty release delivered once is ignored ever after, whatever runs in between |
| Delivery.FailedOrderReleasableIff | apps/order-service/src/saga/order-saga.service.ts:86-158 | a FAILED order's stock comes back in some continuation if and only if its saga is COMPENSATING and the release has been carried out or its command is on the network or can still be sent |
| Delivery.ReleaseLostForGood | apps/inventory-service/src/inventory/inventory-consumer.service.ts:22-36 | once the release command of a compensating order is marked and lost, its whole demand stays reserved in every continuation |
| Delivery.ReleaseCanBeLost | apps/order-service/src/outbox/outbox-relay.service.ts:31-40 | from every state in which a compensating order's stock is not back, some continuation loses the command |
| Delivery.CapturedOrderCompletableIff | apps/order-service/src/saga/order-saga.service.ts:54-158 | an order whose payment was captured completes in some continuation if and only if its saga is done, or is running with the completion event on the network or still to be sent |
| Delivery.CompletionLostForGood | apps/payment-service/src/payment/payment.service.ts:26-29 | once the completion event of a captured payment is marked and lost, no continuation completes the order, repeated charges included, and its demand stays reserved |
| Delivery.CompletionCanBeLost | apps/order-service/src/outbox/outbox-relay.service.ts:31-40 | from every state in which a paid order waits for that event, some continuation loses it |
| Delivery.AllCanBeLost | apps/order-service/src/outbox/outbox-relay.service.ts:29-45 | from every state a continuation reaches the same tables with no message in flight at all |
| Transport.RunGoesOn | apps/order-service/src/outbox/outbox-relay.service.ts:29-45 | what may follow any run: clients, administrators and outside refund commands always; a delivery, at any service and again, exactly of a message on the network; picking up exactly unmarked outbox rows; sending, marking and giving up exactly what a pass holds |
| Transport.NetIff | apps/order-service/src/outbox/outbox-relay.service.ts:34-36 | after any steps the network holds exactly what some step sent from an outbox and no later step dropped |
| Transport.DeliveredWasSent | apps/order-service/src/outbox/outbox-relay.service.ts:34-36 | in every run a message is delivered only after it was sent from some service's outbox, and not dropped in between |
| Transport.MarkedWasSent | apps/order-service/src/outbox/outbox-relay.service.ts:34-39 | in every run a row is marked exactly when a pass has come to mark it, and then it was picked up and sent before |
| Transport.HoldsBalance | apps/order-service/src/outbox/outbox-relay.service.ts:31-42 | in every run the times a row was picked up are the times it was marked or given up on and the times it is still held, and likewise the times it was sent |
| Delivery.StaysLost | apps/order-service/src/outbox/outbox-relay.service.ts:31 | a message neither on the network nor sendable stays so through every step that does not write it again |
| Stranding.NobodySendsRefunds | apps/payment-service/src/payment/payment.service.ts:79-83 | in no run is a refund command in any outbox |
| Stranding.RefundedIff | apps/payment-service/src/payment/payment.service.ts:80-99 | in every run a payment is REFUNDED if and only if a refund command from outside came after its capture |
| Stranding.CapturedStaysIff | apps/payment-service/src/payment/payment.service.ts:80-99 | in every continuation a captured payment stays captured, and stays COMPLETED if and only if no such command comes |
| Stranding.StrandedForGood | apps/order-service/src/saga/order-saga.service.ts:128-158 | an order that failed without compensation, holds stock and is paid for keeps its status and its whole demand reserved in every continuation, and its payment stays COMPLETED exactly without a refund command |
| Stranding.TimeoutStrands | apps/order-service/src/saga/order-saga.service.ts:128-158 | in every run, a timeout strands any running order that is paid for, also one whose completion event was lost |
| Stranding.LostReleaseStrandsStock | apps/order-service/src/saga/order-saga.service.ts:86-126 | a concrete declined order compensates, its release command is lost, and two units stay reserved in every continuation |
| Stranding.TimeoutStrandsStockAndMoney | apps/order-service/src/saga/order-saga.service.ts:128-158 | a concrete timeout run strands an order so; in every continuation it stays FAILED with two units reserved, and its payment is COMPLETED or, exactly with a refund command from outside, REFUNDED |
| RelayPass.RelayIsSteps | apps/order-service/src/outbox/outbox-relay.service.ts:29-45 | a pass of any relay over the rows of all services, with any failures, is a run of the system's pick, send, mark and abandon steps that leaves the messages and marks of the pass and the same tables |
| Accounts.MoneyIsAccountedFor | apps/payment-service/src/payment/payment.service.ts:50-98 | in every run of all services, money completed minus money refunded is the summed totals of the orders whose payment is COMPLETED |
| Accounts.SplitIsExactIff | apps/inventory-service/src/inventory/inventory.service.ts:28-204 | in every run of all services, available and reserved make up exactly the quantity if and only if no upsert lowered the quantity by more than was available |
| System.RunSafe | apps/order-service/src/order/order-consumer.service.ts:33-66 | the cross-service invariant holds in every run: each message vouches for the rows behind it, and each table row for its cause |
| System.StepSafe | apps/order-service/src/order/order-consumer.service.ts:48-61 | every enabled step, delivery, client call, admin change, relay step or loss, keeps the invariant |
| System.OrderStepSafe | apps/order-service/src/saga/order-saga.service.ts:15-158 | an order-service step keeps it when the message it reacts to vouches for the other services' rows |
| System.PaymentStepSafe | apps/payment-service/src/payment/payment.service.ts:18-106 | a charge backed by a reservation, or any refund, keeps it |
| System.InventoryStepSafe | apps/inventory-service/src/inventory/inventory.service.ts:28-204 | an admin change, a reserve of an order's own items or a justified release keeps it |
| System.HeldIsReserved | apps/inventory-service/src/inventory/inventory.service.ts:142-185 | no product's reserved count is below what any one order still holds of it |
| System.ReleaseFits | apps/inventory-service/src/inventory/inventory.service.ts:181-185 | a justified release never asks for more than is reserved |
| Consumers.OrderEachMessage | apps/order-service/src/order/order-consumer.service.ts:34-65 | a message changes the order tables as its handler does, with the default reasons, and any other topic changes nothing |
| Consumers.InventoryEachMessage | apps/inventory-service/src/inventory/inventory-consumer.service.ts:22-36 | reserve and release messages reach their operations and nothing else does |
| Consumers.PaymentEachMessage | apps/payment-service/src/payment/payment-consumer.service.ts:22-36 | charge and refund messages reach their operations and nothing else does |
| OrderSaga.OrderService.CreateOrder | apps/order-service/src/order/order.service.ts:23-97 | a new request stores order and saga and emits OrderCreated and a reserve command with each line's own product and quantity; a request seen before by this user returns that order; a key taken by another user's order changes nothing |
| OrderSaga.OrderService.CancelOrder | apps/order-service/src/order/order.service.ts:130-160 | exactly an admin or the owner cancels, exactly from PENDING or CONFIRMED; only the status changes and one event is emitted; each refusal is told apart and changes nothing |
| OrderSaga.OrderService.HandleInventoryReserved | apps/order-service/src/saga/order-saga.service.ts:15-48 | step, order status and the charge for the saga's user and total, exactly when the saga runs, and otherwise nothing; it never ends a saga |
| OrderSaga.OrderService.HandlePaymentCompleted | apps/order-service/src/saga/order-saga.service.ts:54-84 | step, statuses and the completion event, exactly when the saga runs, and otherwise nothing; the saga is not running afterwards |
| OrderSaga.OrderService.HandlePaymentFailed | apps/order-service/src/saga/order-saga.service.ts:86-126 | step, statuses, the failure event, and a release command with the product and quantity of each of the saga's lines, exactly when it runs; it is not running afterwards |
| OrderSaga.OrderService.FailSaga | apps/order-service/src/saga/order-saga.service.ts:132-158 | step, statuses and the failure event of a failed reservation or timeout, without a release, exactly when the saga runs; an error changes nothing |
| OrderSaga.OrderService.FindExpired | apps/order-service/src/saga/saga-timeout.service.ts:27-34 | at most 20 distinct sagas, all running and expired, and all of them when fewer than 20 are found |
| OrderSaga.OrderService.FailListed | apps/order-service/src/saga/saga-timeout.service.ts:36-39 | the loop over any list, stale or not, fails its sagas one after the other and passes over those whose failing errors |
| OrderSaga.OrderService.CheckTimeouts | apps/order-service/src/saga/saga-timeout.service.ts:26-40 | a sweep fails exactly what the query listed |
| OrderSaga.SweepFailsExactlyRunning | apps/order-service/src/saga/saga-timeout.service.ts:36-39 | whatever the list, exactly the listed sagas still running that can be failed are failed; every other saga and order is untouched |
| OrderSaga.SweepReports | apps/order-service/src/saga/order-saga.service.ts:128-158 | a sweep emits one failure event, with the timeout reason, for each saga it fails, and no other |
| OrderSaga.OrderStepKeepsInv | apps/order-service/src/saga/order-saga.service.ts:15-158 | each operation keeps the saga invariant |
| OrderSaga.OrderRunKeepsInv | apps/order-service/src/saga/saga-state.entity.ts:4-19 | in every run: five (step, status) pairs, the order statuses each allows, one completion or failure event exactly when the saga has ended, one release command exactly when it is compensating, one order per key |
| OrderSaga.SagaAndOrder | apps/order-service/src/saga/saga-state.entity.ts:4-19 | in every run, the steps each saga status has and the order statuses each allows; saga and order agree on user, lines and total; no two orders share a key |
| OrderSaga.AnnouncedOnce | apps/order-service/src/saga/order-saga.service.ts:54-158 | in every run each order has one creation event and one reserve command, a completion, a failure event, or a release command each exactly once if its saga is done, aborted, or compensating, and otherwise never |
| OrderSaga.CommandsCarryItems | apps/order-service/src/order/order.service.ts:75-82 | in every run, each reserve and release command has one item per line of its order, with that line's product and quantity |
| Timeouts.SweepKeepsInv | apps/order-service/src/saga/saga-timeout.service.ts:26-40 | a sweep over any stale list keeps the saga invariant |
| Timeouts.SweepIsRound | apps/order-service/src/saga/saga-timeout.service.ts:26-40 | a sweep over any list the query may return is a round in the sense of the results below |
| Timeouts.OverdueSagaEnds | apps/order-service/src/saga/saga-timeout.service.ts:26-40 | whichever 20 the query returns, and whatever else runs between and within sweeps: while f sagas cannot be failed and at most a healthy ones become due from one query to the next, with d = 20 - f - a > 0, an overdue healthy saga has ended after ceil(n / d) sweeps, n being the healthy sagas due at the first |
| Overload.OverloadStarves | apps/order-service/src/saga/saga-timeout.service.ts:18-34 | with f + a >= 20, from every state and for every running healthy saga: after some orders are placed, there are any number of sweeps, 30 s apart and with no more than a arrivals between them, that find it overdue and never list it |
| Overload.EndsIff | apps/order-service/src/saga/saga-timeout.service.ts:28-34 | while f of the running sagas cannot be failed and up to a healthy ones become due between two sweeps, each other running saga is certain to end some sweeps after its deadline if and only if f + a < 20 |
| OrderSaga.EndedIsFinal | apps/order-service/src/saga/order-saga.service.ts:54-158 | once a saga has ended, its order, saga and emitted events never change again, in any run |
| OrderSaga.CancelledIsNotFinal | apps/order-service/src/order/order.service.ts:144-160 | whenever an order is CANCELLED its saga still runs, and every way it can go on overwrites the status |
| OrderSaga.CancelledIsReached | apps/order-service/src/order/order.service.ts:144-160 | a concrete run ends with a CANCELLED order whose saga runs |
| OrderSaga.CreateIsIdempotent | apps/order-service/src/order/order.service.ts:28-35 | repeating a request changes nothing; after it at most one order answers, and one does exactly when the user had one or the key was free |
| OrderSaga.StepKeepsOrder | apps/order-service/src/order/order.service.ts:47-69 | no operation alters what was ordered, by whom or for how much |
| Inventory.InventoryService.ReserveOrder | apps/inventory-service/src/inventory/inventory.service.ts:109-166 | succeeds if and only if already reserved or every product's total demand fits; then each product's demand moves from available to reserved and each item leaves its row; a refusal changes no stock or ledger and reports the first item that does not fit and what the items before it leave |
| Inventory.InventoryService.ReleaseOrder | apps/inventory-service/src/inventory/inventory.service.ts:168-204 | once per order, each product's demand goes back to available and leaves reserved, which stops at zero, and each item leaves its row |
| Inventory.InventoryService.UpsertStock | apps/inventory-service/src/inventory/inventory.service.ts:28-66 | the quantity given, reserved kept, available shifted by the difference and not below zero; other products untouched; the ledger row with the quantity and the event with the new counts |
| Inventory.InventoryService.AdjustStock | apps/inventory-service/src/inventory/inventory.service.ts:68-107 | succeeds exactly when neither count goes negative; then quantity and available move by delta, reserved and other products stay, the ledger row carries delta and the event the new counts; a refusal changes nothing |
| Inventory.ReserveStops | apps/inventory-service/src/inventory/inventory.service.ts:128-141 | the item at which the loop stops is the first whose prefix does not fit, and the count reported is what earlier items left |
| Inventory.ReserveIgnoresItemOrder | apps/inventory-service/src/inventory/inventory.service.ts:122-152 | neither the verdict nor the stock nor what the ledger holds depends on the order of the items |
| Inventory.IgnoredIff | apps/inventory-service/src/inventory/inventory.service.ts:113-175 | a reserve or release is ignored exactly when the ledger has a row of its kind for the order |
| Inventory.RowsIff | apps/inventory-service/src/inventory/inventory.service.ts:113-191 | which orders have rows after any operations: those that had them and those reserved, or released, since |
| Inventory.DuplicateIgnoredIff | docs/inventory-stock-flow.md:46-48 | after any operations, a further reserve is ignored if and only if an earlier one took effect, and a further release if and only if an earlier one named an item |
| Inventory.RefusalIsNotRemembered | apps/inventory-service/src/inventory/inventory.service.ts:128-141 | a refused reserve delivered again after a restock reserves |
| Inventory.StepKeepsSane | apps/inventory-service/src/inventory/inventory.service.ts:28-204 | no operation makes a column negative; available + reserved - quantity grows if and only if the upsert or release clamp fires |
| Inventory.RunKeepsSane | apps/inventory-service/src/inventory/inventory.service.ts:28-204 | the same over any run, with the gap never decreasing |
| Inventory.GapZeroIffNoClamp | apps/inventory-service/src/inventory/inventory.service.ts:44-46 | quantity == available + reserved at the end of a run if and only if no clamp fired in it |
| Inventory.UpsertClampHappens | apps/inventory-service/src/inventory/inventory.service.ts:44-46 | a concrete run in which the upsert clamp fires and the gap opens |
| Ledger.HeldPartition | apps/inventory-service/src/inventory/stock-ledger.entity.ts:5-28 | the RESERVE and RELEASE deltas of a product add up to what the orders hold of it, order by order |
| Ledger.HeldByReserveRows | apps/inventory-service/src/inventory/inventory.service.ts:146-191 | an order's rows hold exactly its demand, and its release rows exactly minus that |
| Ledger.HasRowIff | apps/inventory-service/src/inventory/inventory.service.ts:113-175 | the idempotency lookup finds an order exactly when some row has its id and the kind asked for |
| Events.DemandPermutation | apps/inventory-service/src/inventory/inventory.service.ts:122-152 | total demand depends on which items are listed, not on their order |
| Events.Items | apps/order-service/src/order/order.service.ts:80 | item k of a command has the product and the quantity of line k |
| Events.TotalAdds | apps/order-service/src/order/order.service.ts:38-40 | the total of one line is price times quantity, and totals of lists put together add up |
| Events.DemandAdds | apps/inventory-service/src/inventory/inventory.service.ts:122-152 | the demand of one item is its quantity for its product and zero for others, and demands of lists put together add up |
| Payment.PaymentService.ChargeOrder | apps/payment-service/src/payment/payment.service.ts:18-77 | for approval and refusal the row's status, reason, user and amount, and the event; a settled payment or an exception changes nothing, and no other payment is touched |
| Payment.PaymentService.RefundOrder | apps/payment-service/src/payment/payment.service.ts:80-106 | exactly a COMPLETED payment, unless the provider throws, becomes REFUNDED with its event for its user and amount; otherwise nothing changes |
| Payment.OneOutcomePerOrder | apps/payment-service/src/payment/payment.service.ts:26-71 | whatever commands are repeated, each order has at most one payment, never left PENDING, with exactly the events its status calls for |
| Payment.OutcomesAre | apps/payment-service/src/payment/payment.service.ts:26-98 | in every run an order has one completion event if it was captured, one failure event if it FAILED, one refund event if it is REFUNDED, and otherwise none; no payment is left PENDING |
| Payment.OutcomesName | apps/payment-service/src/payment/payment.service.ts:50-98 | in every run each of these events names the payment's user and amount |
| Payment.PaymentMovesForward | apps/payment-service/src/payment/payment.service.ts:50-98 | along any run a payment keeps its user and amount and only moves from COMPLETED to REFUNDED |
| Payment.ChargeTwice | apps/payment-service/src/payment/payment.service.ts:26-29 | in any reachable state, charging an order that has a payment changes nothing |
| Payment.MoneyIsConserved | apps/payment-service/src/payment/payment.service.ts:50-98 | in any run, total completed minus total refunded is the sum of the payments now COMPLETED |
| Relay.OutboxRelay.FindPending | apps/inventory-service/src/outbox/outbox-relay.service.ts:31-35 | at most 50 pending rows by age, and no row left out is older than one taken, or left out while there is room |
| Relay.OutboxRelay.SendAndMark | apps/payment-service/src/outbox/outbox-relay.service.ts:38-48 | a row is marked only after it was sent, and a failure changes nothing |
| Relay.OutboxRelay.SendBatch | apps/inventory-service/src/outbox/outbox-relay.service.ts:38-48 | the loop sends and marks row by row and goes on after failures |
| Relay.OutboxRelay.Relay | apps/order-service/src/outbox/outbox-relay.service.ts:29-45 | a pass publishes and marks exactly the batch rows that did not fail, in order, and every row stays pending or published |
| Relay.PassLosesNothing | apps/order-service/src/outbox/outbox-relay.service.ts:34-44 | after a pass every marked row has itself been published, under its own id |
| Relay.SentIs | apps/order-service/src/outbox/outbox-relay.service.ts:34-39 | a pass sends exactly the batch rows whose send does not fail, each event under its row's id |
| Relay.SentInOrder | apps/order-service/src/outbox/outbox-relay.service.ts:34-39 | when no send fails the messages are those of the batch in its order |
| Relay.HealthyRowIsSent | apps/order-service/src/outbox/outbox-relay.service.ts:29-45 | with f < 50 failing pending rows that are older or of the same age, a healthy row with n healthy pending ones no younger than itself is sent within ceil(n / (50 - f)) passes, whichever rows of one age the query prefers and whatever other relays mark and services append |
| Relay.FiftyFailuresStarve | apps/order-service/src/outbox/outbox-relay.service.ts:31-32 | behind any fifty older pending rows that are never marked, of whatever services, no pass of any relay ever sends a row |
| Relay.SentIff | apps/order-service/src/outbox/outbox-relay.service.ts:29-45 | a healthy pending row is certain to be sent after some number of passes if and only if fewer than fifty always-failing pending rows are older or of the same age |
| SlidingWindow.RateLimiter.Prune | packages/redis/src/rate-limit.helper.ts:26 | the set after zremrangebyscore: of each score above the cutoff as many as before and no other, the expiry kept |
| SlidingWindow.AboveCounts | packages/redis/src/rate-limit.helper.ts:26 | each score above the cutoff stays as often as it was there, and no other stays |
| SlidingWindow.CheckCounts | packages/redis/src/rate-limit.helper.ts:24-30 | a check keeps each score that lies in the window of an unexpired set, and adds its own once |
| SlidingWindow.RateLimiter.Check | packages/redis/src/rate-limit.helper.ts:15-39 | the new set (each live score inside the window as often as before, and this call's once more) and expiry; the call is allowed exactly when the set, itself included, holds at most limit scores, with the remainder and the time the window is over |
| SlidingWindow.StoreHoldsWindow | packages/redis/src/rate-limit.helper.ts:24-29 | after any calls the set holds exactly the calls of the window that ends at the last one |
| SlidingWindow.CountIsExact | packages/redis/src/rate-limit.helper.ts:24-32 | pruning and key expiry lose nothing: the count equals the number of all calls ever made in (now - window, now] |
| SlidingWindow.AllowedIffUnderLimit | packages/redis/src/rate-limit.helper.ts:34-38 | in every history a call's verdict is to allow it if and only if at most limit calls, itself and refused ones included, lie in its window, with the exact remainder and end of the window |
| SlidingWindow.WindowBound | packages/redis/src/rate-limit.helper.ts:15-39 | no window of the configured length, wherever it ends, holds more than limit calls whose verdict was to allow them |
| FixedWindow.FixedWindowCounter.Increment | apps/auth-service/src/auth/rate-limiter.service.ts:69-86 | the new counter, also when the expiry is lost, and the verdict; a refused client is told the time left of this window to within half a second, but a whole window when less than half a second is left or no expiry is known |
| FixedWindow.CheckLoginRateLimit | apps/auth-service/src/auth/rate-limiter.service.ts:33-58 | both counters are bumped by every attempt and lose their expiries separately; it passes if and only if both allow it, with the smaller remainder; a refused one is told to wait for the address counter if that refuses, else for the e-mail counter |
| FixedWindow.LifetimeState | apps/auth-service/src/auth/rate-limiter.service.ts:69-80 | within a key's lifetime the counter is the number of calls since it opened and the expiry is the opening call's |
| FixedWindow.AdmittedIffEarly | apps/auth-service/src/auth/rate-limiter.service.ts:82-85 | each lifetime admits exactly its first limit calls |
| FixedWindow.LifetimesDisjoint | apps/auth-service/src/auth/rate-limiter.service.ts:76-80 | a lifetime opens only a full window after the previous one opened, and never after a lost expiry |
| FixedWindow.TwiceTheLimit | apps/auth-service/src/auth/rate-limiter.service.ts:69-86 | a stretch of the window's length holds at most 2 * limit - 1 admitted calls of a key that is never deleted |
| FixedWindow.TwiceTheLimitIsReached | apps/auth-service/src/auth/rate-limiter.service.ts:69-86 | for every limit and every window, one second included, some calls reach that bound |
| FixedWindow.ExcessStraddles | apps/auth-service/src/auth/rate-limiter.service.ts:76-80 | in any history a stretch holds more than the limit only if the key reopens in it and it also holds an admitted call, not the opening one, of the lifetime before |
| FixedWindow.SlidingIff | docs/auth-flow.md:118 | in all histories every stretch stays within the limit, as a sliding window promises, if and only if the limit is one |
| FixedWindow.LoginIsNotSliding | apps/auth-service/src/auth/rate-limiter.service.ts:23-29 | neither configured login counter keeps that promise |
| FixedWindow.LostExpiryBlocksForever | apps/auth-service/src/auth/rate-limiter.service.ts:72-80 | if the expiry of a window is lost, every call after the first limit ones is refused for good |
| Gateway.RateLimitMiddleware.Use | apps/api-gateway/src/middleware/rate-limit.middleware.ts:24-49 | the limit by path, the key spelled out, that key's new counter and expiry, and passing if and only if within the limit, with remainder and waiting time |
| Gateway.SameKeyIff | apps/api-gateway/src/middleware/rate-limit.middleware.ts:31-32 | two requests share a counter exactly when they fall under one rule and their address and prefix spell the same text |
| Gateway.PrefixIs | apps/api-gateway/src/middleware/rate-limit.middleware.ts:32 | the prefix in a key is the path up to its third slash, or all of it when it has no third |
| Gateway.AddressesSeparate | apps/api-gateway/src/middleware/rate-limit.middleware.ts:28-32 | for addresses without a slash that text is the same exactly when address and prefix are |
| Gateway.SlashesShareKeys | apps/api-gateway/src/middleware/rate-limit.middleware.ts:28-32 | two requests with different address fields, one holding a slash, that share a counter |
| Gateway.CollideIff | apps/api-gateway/src/middleware/rate-limit.middleware.ts:28-32 | two address fields share a counter for some paths if and only if they are equal or one is the other followed by ":/" and text without a slash |
| Gateway.AuthWritesByAddress | apps/api-gateway/src/middleware/rate-limit.middleware.ts:13-32 | under the rule for logins, registrations and passwords two requests share a counter exactly when their address fields are the same, slashes or not |
| Gateway.KeysAreIndependent | apps/api-gateway/src/middleware/rate-limit.middleware.ts:24-34 | in any mix of requests each key's counter is what its own requests alone make of it |
| Gateway.GatewayBound | apps/api-gateway/src/middleware/rate-limit.middleware.ts:12-46 | whatever else is served, a key passes fewer than twice its limit in any stretch of the rule's window |
| Gateway.RulesAreNotSliding | apps/api-gateway/src/middleware/rate-limit.middleware.ts:11-18 | neither configured rule is a sliding window |
| Lock.DistributedLock.Acquire | packages/redis/src/lock.helper.ts:12-16 | succeeds exactly when no unexpired token exists, and then stores its own with the time to live; otherwise nothing changes |
| Lock.DistributedLock.Release | packages/redis/src/lock.helper.ts:21-31 | deletes exactly its own unexpired token and nothing else; every other holder keeps its lock |
| Lock.MutualExclusion | packages/redis/src/lock.helper.ts:37-47 | in every run a body still running when another on its key entered had outrun its time to live, and at most one body per key is unfinished within its time to live |
| Lock.LeavingFrees | packages/redis/src/lock.helper.ts:21-47 | a body that leaves in time frees its key, so that the next call enters, and touches no other key |
| Lock.RunGoesOn | packages/redis/src/lock.helper.ts:37-47 | any call at any later time, and the end of any running body, can be the next step of a run |
| Lockout.LoginGuard.Login | apps/auth-service/src/auth/auth.service.ts:165-196 | exactly which of the four outcomes it is, from the counter, the time, the password and the verification, and the account after each |
| Lockout.LoginGuard.ResetPassword | apps/auth-service/src/auth/auth.service.ts:384-389 | the account is not locked afterwards, at any time |
| Lockout.FailuresAreSpaced | apps/auth-service/src/auth/auth.service.ts:165-192 | from a zero counter, each wrong password beyond the fifth is a full lockout later than the one before |
| Lockout.LockoutBound | apps/auth-service/src/auth/auth.service.ts:165-195 | between resets, an interval of length T from a zero counter sees at most 5 + floor(T / 15 min) wrong passwords |
| Lockout.LockoutBoundIsTight | apps/auth-service/src/auth/auth.service.ts:165-192 | for every T some attempts reach the bound |
| Sessions.AuthService.OpenSession | apps/auth-service/src/auth/auth.service.ts:199-225 | the session row, its cached copy and the user's set after a login, with their seven days; other sessions and users are untouched; its token refreshes at once |
| Sessions.AuthService.Refresh | apps/auth-service/src/auth/auth.service.ts:242-306 | exactly which of the six outcomes it is, the device mismatch being two different non-empty agents, and the three tables after each: a mismatch revokes and uncaches the session, reuse revokes the family, success renews token, expiry and cached agent |
| Sessions.AuthService.RevokeSession | apps/auth-service/src/auth/auth.service.ts:429-441 | a known session is revoked, uncached and taken from its user's set, and nothing else changes; an unknown one changes nothing |
| Sessions.AuthService.LogoutAll | apps/auth-service/src/auth/auth.service.ts:312-325 | exactly the user's sessions are revoked, exactly those in its unexpired set are uncached, and the set is gone |
| Sessions.AuthService.VerifyToken | apps/auth-service/src/auth/auth.service.ts:409-423 | an access token is accepted exactly when its signature is good and its session is cached |
| Sessions.RunKeepsInv | apps/auth-service/src/auth/auth.service.ts:199-325 | in every run the stored token is the one issued last, no token is issued twice, within a session or across sessions, and every session has its own family |
| Sessions.TokensAreUnique | apps/auth-service/src/auth/auth.service.ts:199-285 | in every run no token is issued twice, within a session or across two, the stored one is the last, and no two sessions share a family |
| Sessions.RunGoesOn | apps/auth-service/src/auth/auth.service.ts:199-325 | any request, with fresh values where the service draws them, can be the next step of a run |
| Sessions.RefreshNeedsNewestToken | apps/auth-service/src/auth/auth.service.ts:242-285 | in every run a refresh succeeds if and only if the session is cached, unexpired and not revoked, saved and presented agent are equal or one is empty, and the token is the newest issued |
| Sessions.SupersededTokenRevokes | apps/auth-service/src/auth/auth.service.ts:263-274 | in every run a superseded token that reaches the comparison revokes its session and no other |
| Sessions.RevokedForGood | apps/auth-service/src/auth/auth.service.ts:255-261 | a revoked session stays revoked and unrefreshable in every continuation |
| Sessions.RevocationIsFinal | apps/auth-service/src/auth/auth.service.ts:242-325 | once reuse, device mismatch, logout or logout-all has hit a session, no later refresh of it ever succeeds |
| Sessions.RevokedStillCachedIff | apps/auth-service/src/auth/auth.service.ts:255-325 | in every run and continuation a revoked session is still cached, so its access tokens accepted, if and only if its copy has not expired and neither the revocation nor a later operation deleted it |
| Sessions.LogoutAllMissesRenewed | apps/auth-service/src/auth/auth.service.ts:293-317 | a session refreshed after its user's set was last renewed survives a logout-all in the cache |
| Pagination.SortSorts | apps/catalog-service/src/product/product.service.ts:59-60 | the order is strictly descending by (createdAt, id) over exactly the selected rows |
| Pagination.AfterSort | apps/catalog-service/src/product/product.service.ts:71-76 | selecting the rows below a cursor commutes with sorting |
| Pagination.AfterIsSuffix | apps/catalog-service/src/product/product.service.ts:71-76 | the rows below a cursor are a suffix of the sorted list |
| Pagination.AboveCursor | apps/catalog-service/src/product/product.service.ts:77-82 | a page's last row and everything before it is not below its own cursor, so no row is listed twice |
| Pagination.FollowProgress | apps/catalog-service/src/product/product.service.ts:71-84 | each cursor selects fewer rows than the request that returned it, so following cursors ends |
| Pagination.PageIsSlice | apps/catalog-service/src/product/product.service.ts:34-112 | every request, by cursor or by page number, returns a slice of the full sorted list, with a cursor exactly when the slice is full |
| Listing.PageIff | apps/catalog-service/src/product/product.service.ts:34-112 | a request returns a row if and only if it is in the table, ACTIVE, not deleted, within category and price bounds, below the cursor, and as many such rows are newer as its page demands |
| Listing.PageInOrder | apps/catalog-service/src/product/product.service.ts:59-112 | a page is newest first, and has a cursor exactly when it is full: the last row's id and its time cut to milliseconds |
| Listing.FilterIff | apps/catalog-service/src/product/product.service.ts:48-57 | the WHERE clause keeps exactly the rows that are ACTIVE, not deleted and within the bounds, as often as they occur |
| Listing.FollowShows | apps/catalog-service/src/product/product.service.ts:48-111 | following cursors never shows a row that is not ACTIVE, is deleted or was not asked for |
| Listing.FollowShowsAll | apps/catalog-service/src/product/product.service.ts:48-111 | with timestamps at the cursor's resolution it shows every row that may be shown, as often as the table has it |
| Listing.NumberedPagesShowAll | apps/catalog-service/src/product/product.service.ts:87-111 | enough pages by number show every such row, whatever the timestamps |
| Pagination.FollowIsPages | apps/catalog-service/src/product/product.service.ts:71-112 | following cursors walks the pages of the full sorted list |
| Pagination.PagesExactIff | apps/catalog-service/src/product/product.service.ts:71-84 | the pages put together are the rest of the list if and only if at each boundary the next row is below the cursor |
| Pagination.FollowIsExactIff | apps/catalog-service/src/product/product.service.ts:48-111 | following nextCursor yields the whole sorted list, no skips or repeats, if and only if no page boundary separates rows the millisecond cursor cannot tell apart |
| Pagination.FollowIsExactAtResolution | apps/catalog-service/src/product/product.service.ts:48-111 | with timestamps at the cursor's resolution the enumeration is exact for every page size and filter |
| Pagination.SameMillisecondIsSkipped | apps/catalog-service/src/migrations/1744000001000-CreateProductsTable.ts:34 | with page size 1, the older of two products of one millisecond is never listed |
| Pagination.NumberedPagesAreExact | apps/catalog-service/src/product/product.service.ts:87-111 | the first n pages by number are exactly the first n * limit rows, with no boundary condition |
| ProductCache.CatalogService.FindOne | apps/catalog-service/src/product/product.service.ts:114-127 | the answer from a live entry or the table, and the cache filled on a hit in the table only |
| ProductCache.CatalogService.CreateForVendor | apps/catalog-service/src/product/product.service.ts:131-149 | a vendor's product cannot be found before approval |
| ProductCache.CatalogService.CreateForAdmin | apps/catalog-service/src/product/product.service.ts:274-291 | an admin's product can be found at once exactly when no other status than ACTIVE is given |
| ProductCache.CatalogService.UpdateForVendor | apps/catalog-service/src/product/product.service.ts:169-200 | only the owner edits, given fields only, and no read finds the product until it is approved again |
| ProductCache.CatalogService.SoftDeleteForVendor | apps/catalog-service/src/product/product.service.ts:202-214 | only the owner deletes; the row stays, and no read finds it |
| ProductCache.CatalogService.UpdateForAdmin | apps/catalog-service/src/product/product.service.ts:293-316 | given fields and status only; every read afterwards answers from the table |
| ProductCache.CatalogService.HardDelete | apps/catalog-service/src/product/product.service.ts:318-324 | no read finds the product; a soft-deleted row is not found to be deleted |
| ProductCache.CatalogService.Approve | apps/catalog-service/src/product/product.service.ts:326-338 | every read afterwards finds the product as stored |
| ProductCache.CatalogService.Reject | apps/catalog-service/src/product/product.service.ts:340-352 | no read finds the product |
| ProductCache.CatalogService.Suspend | apps/catalog-service/src/product/product.service.ts:354-365 | no read finds the product |
| ProductCache.CatalogService.UploadProductImage | apps/catalog-service/src/vendor/image-upload.service.ts:27-94 | the checks in their order, two images with the next display orders; while an entry lives every read answers as before |
| ProductCache.StepCoherentIff | apps/catalog-service/src/product/product-cache.service.ts:12-24 | an operation keeps every answer equal to the uncached lookup if and only if it is not an image upload to a product with a live entry |
| ProductCache.RunGoesOn | apps/catalog-service/src/product/product.service.ts:114-365 | any operation at any later time, with a fresh id for a new product, can be the next step of a run |
| ProductCache.RunKeepsEntries | apps/catalog-service/src/product/product.service.ts:114-365 | in every run, uploads included, a cached product is ACTIVE and not deleted, and its entry is right about everything but images added since |
| ProductCache.AnswersAreFresh | apps/catalog-service/src/product/product-cache.service.ts:5-20 | in every run findOne finds exactly what the uncached lookup finds, missing at most the newest images, and only within 300 s of an upload |
| ProductCache.CoherentWithoutUploads | apps/catalog-service/src/product/product.service.ts:114-365 | in every run without uploads findOne equals the uncached lookup |
| ProductCache.UploadStaysHidden | apps/catalog-service/src/vendor/image-upload.service.ts:74-93 | an image added a second after a read is missing from every read until the entry expires |

## Left out

- Concurrency inside a handler: guards read without a lock, the stale read in `upsert`, two concurrent charges of one order.
- The admin webhook simulator of the payment service, which injects payment events that no payment stands behind.
- Floating-point totals (`parseFloat`, `toFixed`), card digits, product names and addresses on orders, `version` columns.
- JSON and base64 encoding of messages and cursors; an unreadable cursor, which the code treats as no cursor; a price bound that is no number.
- Full-text search, the sorts other than newest first (there the cursor does not match the order), and the admin and vendor lists.
- createdAt, updatedAt, rejection reasons and slug clashes of products in the cache model; the product events sent to Kafka.
- What the client sees of a limiter: HTTP headers, how the gateway takes the address from the request headers, e-mail lower-casing.
- Deletion of the e-mail counter after a successful login: the window bounds are for keys that are not deleted early.
- Login steps around the lockout: unknown user, OAuth-only account, bcrypt, JWT signing, IP and agent truncation.
- Metrics, logging, tracing, health checks, notification mail, categories, profile, addresses, storage, the web app: I/O or easy members.
- The order in which passes pick rows, in the whole-system model; a sweep whose database connection fails before its loop.
- Changes to the product table between two requests of one client that pages through it.
- What happens inside a body run under `withLock`: it is modelled by its entry and exit times.
