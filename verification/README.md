# Order processing: a verified model

This project models the transactional core of an order-processing API (Go on PostgreSQL):
placing, cancelling and paying for orders under row locks, and the idempotency-key protocol
that protects `POST /orders`. It proves what concurrent runs of that core guarantee.

How the pieces fit:

- **Closed forms.** `Atomic.dfy` says, without loops, what each transaction does when it has the
  database to itself (`Place`, `Cancel`, `Pay`, and the catalogue's create, patch and delete),
  with Go's 64-bit and 32-bit arithmetic (`Ints.dfy`) and the schema's constraints.
  `Placement.dfy`, `Runs.dfy` and `Outcomes.dfy` prove what these promise: acceptance, totals,
  conservation, the life of an order, and which answer is given when.
- **The code.** `Store.dfy`, `Idempotency.dfy` and `Handler.dfy` are the services as classes with
  the source's loops, in-place sorts, statements and rollback, proved against the closed forms.
- **Concurrency.** `Machine.dfy` runs one transaction statement by statement with its locks and
  private writes. `System.dfy` interleaves any number of them, with catalogue changes, aborts and
  a bounded connection pool. `Serializability.dfy` proves that every interleaving equals a serial
  history of closed forms; `Liveness.dfy` proves that there is no deadlock and that runs end;
  `Lifetimes.dfy`, `Buyers.dfy` and `Race.dfy` carry the guarantees over to concurrent runs.
- **Retries.** `Protocol.dfy` advances any number of keyed requests statement by statement on top of
  that system, with a clock; `ExactlyOnce.dfy` proves what keys promise, and `Overrun.dfy` builds the
  run in which a claimant overruns its window and one key gets two orders.

Supporting files: `Tally.dfy` (amounts per product), `Ordering.dfy` (lock order), `Sums.dfy`,
`Schema.dfy` (tables), `Progress.dfy` (loop steps against closed forms), `Steps.dfy` and `Frame.dfy`
(one statement; one other transaction's commit).

PostgreSQL is taken to do what it documents: `FOR UPDATE` is an exclusive row lock held to the end of
the transaction and returns the latest committed row, one statement is atomic, and violated
constraints and out-of-range integers abort. An insert owns its new row. UUIDs are numbers;
`BytesCompareAsNumbers` justifies that. New order ids and provider transaction ids are fresh. The
payment provider's answers are arbitrary, as is whether a response can be stored: both are parameters.

## Where the code and its comments differ

- `api/internal/order/order_service.go:101-102` says a decrement that affects no row means that the
  stock check was wrong. In range that branch is unreachable (`DecrementNeverRefused`). But request
  quantities are not range-checked: the slice tag does not reach the elements
  (`api/internal/order/order_model.go:51-56`), the check uses the 64-bit sum and the decrement the
  32-bit quantity line by line. So out of range the branch is reachable: 5 and -5 units of one product
  priced 1, of which 3 are in stock (`AggregatedCheckNeedsRange`). `DecrementRefusedIff` says exactly
  when, for all requests: the total must pass the order row's constraint, and some line must run out.
- The order total, summed per product, is the sum of the stored subtotals, and each subtotal is price
  times quantity, only if the true cost fits 64 bits (`TotalIsExactIff`, in range; `TotalIsStoredIff`,
  for any quantities). Otherwise an accepted order can carry rows that do not add up
  (`TotalLeavesRows`); what always holds is the equality modulo 2^64 (`TotalIsItemised`).
- `api/internal/order/order_handler.go:206-207` says restoring stock can only fail if the product row
  is gone. The foreign key rules that out; the one refusal left is a stock that would leave 32 bits
  (`CancelOutcome`, `FullShelfBlocksCancel`).
- The repository's `README.md:86-95` calls the row lock defence in depth behind the guarded decrement. In the code the
  locked check decides and, in range, the guard never does.

## Model

| member | source | states |
|---|---|---|
| Ordering.BytesCompareAsNumbers | api/internal/order/order_service.go:224-226 | bytewise comparison of UUIDs is a total order, the numeric one |
| Ordering.OneEnumeration | api/internal/order/order_service.go:218-229 | a set of products has one ascending enumeration, so map iteration order cannot show in the lock sequence |
| Store.SortByKey | api/internal/order/order_service.go:182-184 | the in-place sort leaves ascending keys and the same elements; ties stay open |
| Store.OrderService.QuantityByProduct | api/internal/order/order_service.go:210-216 | the map has exactly the requested products, each with its wrapped 64-bit sum |
| Store.OrderService.SortedProductIDs | api/internal/order/order_service.go:218-229 | strictly ascending, exactly the map's keys |
| Store.OrderService.LockAndPrice | api/internal/order/order_service.go:124-146 | reports the smallest product that is missing, as not found, or short, as insufficient; otherwise the price snapshot and total of the closed form |
| Store.OrderService.InsertLines | api/internal/order/order_service.go:84-106 | reports the first line refused; otherwise all items are stored and all narrowed quantities taken |
| Store.OrderService.CreateOrder | api/internal/order/order_service.go:61-116 | the whole order as the closed form has it, answered with the pending rows that are now in the tables, or the tables as they were before |
| Store.OrderService.RestockItems | api/internal/order/order_service.go:186-198 | puts back exactly the stored quantities, or reports the refusal of the per-product check |
| Store.OrderService.CancelOrder | api/internal/order/order_service.go:158-208 | the whole cancellation, whatever order the item rows came in, answered with the cancelled row, or the tables as they were before; not found unless the order is the caller's |
| Store.PaymentRepository.Pay | api/internal/payment/payment_repository.go:37-167 | which refusal is given when; a pending order is charged its amount exactly once, any other not at all; the provider's answer is written and the rows left are the answer |
| Store.Tables.DecreaseProductStock | api/internal/order/queries/orders.sql:6-11 | for any quantity, affects the row exactly when the stock covers the narrowed quantity, which it then subtracts, or fails past 32 bits |
| Store.Tables.IncreaseProductStock | api/internal/order/queries/orders.sql:60-64 | for any quantity, adds it narrowed, or fails past 32 bits or below zero, or affects no row |
| Store.Tables.InsertOrder | api/internal/order/queries/orders.sql:13-18 | a pending order with the total, refused if negative or taken |
| Store.Tables.CreateOrderItem | api/internal/order/order_store.go:133-155 | appends the item with narrowed quantity and 64-bit subtotal exactly when the row constraints hold |
| Store.Tables.CreatePayment | api/internal/order/queries/orders.sql:30-37 | one awaiting payment per order, refused if negative |
| Store.Tables.LockOrderForUpdate | api/internal/order/queries/orders.sql:66-70 | finds the row only for the user it belongs to |
| Store.Tables.GetOrderItemsByOrderID | api/internal/order/queries/orders.sql:56-58 | all item rows of the order, in no promised order |
| Store.Tables.UpdatePaymentStatus | api/internal/payment/queries/payment.sql:6-12 | rewrites status and transaction id of that payment only, or returns no row |
| Store.Tables.MarkOrderAsPaid | api/internal/payment/queries/payment.sql:26-31 | marks the order paid, or returns no row |
| Store.Tables.UpdateOrderStatus | api/internal/order/queries/orders.sql:49-54 | rewrites the status if the order belongs to the user, or returns no row |
| Store.Tables.Restore | api/internal/order/order_store.go:72-84 | rollback brings every table back |
| Placement.PlaceAcceptedIff | api/internal/order/order_service.go:71-110 | an order is placed if and only if every product exists and covers its sum, total and lines satisfy the constraints, narrowed quantities are in stock and the id is new |
| Placement.LinesAcceptedIff | api/internal/order/order_service.go:85-106 | well-formed lines all go through if and only if the narrowed totals are in stock |
| Placement.AggregatedCheckSuffices | api/internal/order/order_service.go:97-105 | in range, once the summed check passed, no line is refused for stock |
| Placement.TwoLinesRunOut | api/internal/order/order_model.go:50-57 | whenever the first of two lines asks for too much and the second hides it, summed check and total pass and the guarded decrement refuses the order |
| Placement.AggregatedCheckNeedsRange | api/internal/order/order_model.go:50-57 | such a request: price 1, stock 3, lines of 5 and -5 |
| Placement.DecrementRefusedIff | api/internal/order/order_service.go:71-105 | for any quantities, once the locking loop passed, the order is refused for stock if and only if its total passes the order row's constraint and some line runs out |
| Placement.TotalIsItemised | api/internal/order/order_service.go:129-142 | the per-product total equals the wrapped sum of the per-line subtotals for every request, and the true cost when that fits |
| Placement.TotalIsStoredIff | api/internal/order/order_store.go:133-140 | for every request, exactly when each stored subtotal is price times stored quantity and the total is their unwrapped sum |
| Placement.TotalIsExactIff | api/internal/order/order_service.go:129-142 | in range, that holds if and only if the true cost fits 64 bits |
| Placement.TotalLeavesRows | api/internal/order/order_store.go:133-140 | out of range it fails on an accepted order: total 4, four rows of one unit and 2^62 + 1 each |
| Placement.PlacePermuted | api/internal/order/order_service.go:118-146 | permuting in-range lines changes neither lock sequence, verdict, total, payment nor stock |
| Placement.PlaceThenCancel | api/internal/order/order_service.go:156-208 | cancelling right after placing succeeds and restores every product row |
| Placement.CancelRestoresExactly | api/internal/order/order_service.go:186-198 | cancelling adds to each product what placing took, whatever changed in between |
| Progress.RestockFails | api/internal/order/order_service.go:181-198 | going through sorted items one by one reports the per-product refusal |
| Progress.RestockPermuted | api/internal/order/queries/orders.sql:56-58 | verdict and restocked rows do not depend on the order of the item rows |
| Runs.RunKeepsInv | api/migrations/000004_create_payments_table.up.sql:1-13 | in every reachable database each order has items and exactly one payment, totals, items and amount agree, it is paid exactly when its payment succeeded, and no stock is negative |
| Runs.StockConserved | api/internal/order/queries/orders.sql:6-11 | over every history, stock plus quantities in uncancelled orders is what the catalogue supplied |
| Runs.NothingLostNothingOversold | api/internal/order/order_store.go:106-140 | the same from empty tables, for arbitrary request quantities, with nothing negative |
| Runs.RunKeepsOrder | api/internal/product/queries/products.sql:17-25 | later events never change an order's owner, total, items, prices or amount, nor a settled status or its payment |
| Runs.SettledOnce | api/internal/order/order_service.go:165-200 | over every history an order is credited back once if it ends cancelled, charged once if it ends paid, and never otherwise |
| Runs.PayAgain | api/internal/payment/payment_repository.go:71-89 | paying again at any later time returns the same payment and changes nothing |
| Runs.CancelOutcome | api/internal/order/order_service.go:173-198 | cancelling one's own pending order never finds items or products missing; it is refused exactly when a stock would leave 32 bits |
| Runs.FullShelfBlocksCancel | api/internal/order/order_handler.go:206-207 | that refusal can be brought about for every pending order |
| Runs.CancelUndoesPlace | api/internal/order/order_service.go:173-198 | after any history, cancelling puts back exactly what placing took |
| Outcomes.Wrap32Is | api/internal/order/order_store.go:106-118 | narrowing lands in the 32-bit range, off by a multiple of 2^32 |
| Outcomes.PlaceRefusedForProduct | api/internal/order/order_service.go:124-143 | the smallest product that is missing or short decides, as not found or as insufficient |
| Outcomes.PlaceRefusedLater | api/internal/order/order_service.go:79-110 | after the locking loop: a negative total, a taken id, the first bad line (constraint before stock), a taken payment, in that order; otherwise the order is placed |
| Outcomes.PlaceAnswer | api/internal/order/order_service.go:79-115 | the new order is the caller's and pending, its payment awaits the total, each item shows narrowed quantity, locked price and 64-bit subtotal, each product gives up the narrowed quantities, and the answer shows these rows |
| Outcomes.CancelTable | api/internal/order/order_service.go:165-180 | exactly when a cancellation finds no order, no pending order, or no items |
| Outcomes.CancelDecided | api/internal/order/order_service.go:181-198 | an own pending order with items is cancelled exactly when every product exists and has room below 2^31 |
| Outcomes.CancelRefusedForProduct | api/internal/order/order_service.go:181-198 | otherwise the smallest product without room decides the refusal |
| Outcomes.CancelAnswer | api/internal/order/queries/orders.sql:49-54 | only the status changes, the stored quantities come back, and the answer is the cancelled row |
| Outcomes.PayTable | api/internal/payment/payment_repository.go:46-93 | exactly which payment is refused with which error |
| Outcomes.PayAnswer | api/internal/payment/payment_repository.go:71-166 | what a payment writes for each provider's answer, that it writes nothing for a settled order, and that the answer is the rows left |
| Outcomes.StrangersAreRefused | api/internal/order/queries/orders.sql:66-70 | nobody can pay for or cancel another user's order |
| Outcomes.CreateTable | api/internal/product/queries/products.sql:9-16 | exactly when a product is created, and its row |
| Outcomes.PatchTable | api/internal/product/queries/products.sql:17-25 | a patch sets what it names and keeps the rest; negative values are refused |
| Outcomes.DeleteTable | api/internal/product/queries/products.sql:26-28 | a product is deleted exactly when no item row names it |
| Lifetimes.OrderKept | api/internal/product/queries/products.sql:17-25 | between any two moments of any interleaving an order keeps owner, total, items, prices and amount, and once settled its status and payment |
| Lifetimes.EndedAt | api/internal/order/order_store.go:72-84 | each finished transaction took effect, and was decided, on the tables of one moment between its start and its answer |
| Lifetimes.PlacementAnswered | api/internal/order/order_service.go:79-115 | in every concurrent run, a placement's answer shows the rows its commit put into the tables, and the order stays the caller's with that total and those items |
| Lifetimes.CancellationAnswered | api/internal/order/order_service.go:164-207 | in every concurrent run, which of the three refusals a cancellation gets, or the cancelled row that then stays |
| Lifetimes.PaymentAnswered | api/internal/payment/payment_repository.go:46-166 | in every concurrent run, a payment is refused exactly for another user's or a cancelled order, and otherwise shows the rows it left |
| Lifetimes.AbortLeavesNothing | api/internal/order/order_store.go:72-84 | a transaction can be cut off at any moment; tables and other transactions stay as they were and its rows are free |
| Lifetimes.PoolRespected | api/internal/platform/database/database.go:44-44 | no more transactions run at a time than there are connections |
| Lifetimes.NoPendingSuccess | api/internal/payment/payment_repository.go:94-112 | in every concurrent run, a payment that locked a pending order goes on to the charge: the shortcut for a successful payment is unreachable |
| Lifetimes.CancelAnswered | api/internal/order/order_service.go:164-198 | in every concurrent run, a refused cancellation is told of no such order, a settled order or a stock past 32 bits, never of missing items or products |
| Lifetimes.PaidAnswersAgain | api/internal/payment/payment_repository.go:71-89 | however payments overlap, each one answered after a paid order gets the same payment and order |
| Steps.StepGood | api/internal/order/order_service.go:71-110 | each statement keeps the private state equal to a run alone, or ends with the closed form's answer |
| Steps.CommitGood | api/internal/payment/payment_repository.go:114-147 | at commit, the private writes and the reply are those of the closed form |
| Frame.MatchesFrame | api/internal/order/order_service.go:118-123 | what a transaction knows survives every change outside the rows it holds |
| Serializability.Serializable | api/internal/order/order_store.go:72-84 | every interleaved run has the tables and the answers of a serial history in order of ending; aborted transactions leave no trace |
| Serializability.PlacedIffAnswered | api/internal/order/order_service.go:71-115 | an order is in the tables exactly when its placement was answered with success |
| Liveness.HeldBelowWanted | api/internal/order/order_service.go:118-123 | a row still waited for comes after every row held: order, products by id, payment |
| Liveness.NoDeadlock | api/internal/payment/payment_repository.go:46-69 | with at least one connection, some unfinished transaction can always go on |
| Liveness.RunsEnd | api/internal/order/order_service.go:132-143 | the transactions of every run take no more actions than a bound fixed by its first state |
| Liveness.StuckMeansEnded | api/internal/platform/database/database.go:44-44 | a run that cannot go on has ended every transaction |
| Buyers.StockConservedConcurrently | api/internal/order/queries/orders.sql:6-11 | conservation at every moment of every concurrent run |
| Buyers.SettledOnceConcurrently | api/internal/payment/payment_repository.go:71-143 | in races of paying and cancelling, at most one of credit and charge is committed, and once |
| Buyers.DecrementRefusedExactly | api/internal/order/order_service.go:97-105 | for any quantities, in every concurrent run, a decrement affects zero rows exactly when its line runs out |
| Buyers.DecrementNeverRefused | api/internal/order/order_service.go:101-105 | in range, in every concurrent run, no decrement affects zero rows |
| Buyers.BuyVerdict | api/internal/order/order_service.go:132-143 | one buyer is served exactly when the shelf has the units and the total is representable |
| Race.BuyersShareTheShelf | README.md:95-104 | N buyers of q units: exactly min(N, stock div q) orders and the rest of the stock, under every interleaving |
| Race.LosersRefused | README.md:95-104 | every other buyer is told the stock is insufficient |
| Idempotency.IdempotencyService.CreateIdempotency | api/internal/idempotency/queries/idempotency.sql:6-13 | inserts exactly when the key is new |
| Idempotency.IdempotencyService.ReclaimStaleIdempotency | api/internal/idempotency/idempotency_repository.go:88-113 | succeeds only on the user's open claim older than the given time at its end, and always on one older at its start |
| Idempotency.IdempotencyService.CheckAndClaim | api/internal/idempotency/idempotency_service.go:29-90 | a new key is granted; another user, another body and a saved response get their answers; an open claim is in progress for 30 seconds and granted after that |
| Idempotency.IdempotencyService.SaveResponse | api/internal/idempotency/idempotency_service.go:92-98 | stores the response in the caller's own row |
| Handler.OrderHandler.CreateOrder | api/internal/order/order_handler.go:53-121 | rejects empty orders; answers 201 exactly when the order was placed, and saves the response exactly when it can be stored |
| Handler.OrderHandler.Post | api/internal/platform/middleware/idempotency.go:49-72 | an order is placed only under a fresh claim, on a new key or one open past the window; replays, mismatches and open claims touch nothing |
| Handler.OrderHandler.PostTwice | api/internal/platform/middleware/idempotency.go:56-61 | the same request sent again returns the first order if that was saved, is told to wait within the window if not, and places none |
| Protocol.AlwaysInv | api/internal/idempotency/idempotency_service.go:44-87 | at every moment of every run each request's phase, its key's row and its transaction agree |
| Protocol.RecordsKept | api/internal/idempotency/queries/idempotency.sql:15-32 | a key's user and hash never change, a saved response is never removed, creation times never go back |
| ExactlyOnce.ClaimsExclusive | api/internal/idempotency/idempotency_service.go:15-15 | two grants of one key are more than 30 000 000 000 nanoseconds apart in every run |
| ExactlyOnce.NoClaimAfterResponse | api/internal/idempotency/queries/idempotency.sql:23-32 | once a response is stored the key is never granted again |
| ExactlyOnce.OneReclaimWins | api/internal/idempotency/queries/idempotency.sql:23-32 | of concurrent reclaimers of one claim, the first wins and the others find it in progress |
| ExactlyOnce.RepliesMean | api/internal/idempotency/idempotency_service.go:52-86 | a mismatch means a body different from every granted one; a replay was saved for the same key, user and body |
| ExactlyOnce.OneOrderPerKey | api/internal/order/order_handler.go:81-118 | with this key's claimants done within 30 seconds, at most one order of the key is ever in the tables, whatever happens on other keys |
| ExactlyOnce.SecondOrderMeansLate | api/internal/idempotency/idempotency_service.go:15-15 | a second order for a key means that a claimant of that key overran the window or lost its response |
| ExactlyOnce.RetryIsReplayed | api/internal/platform/middleware/idempotency.go:56-61 | with this key's claimants on time, a saved response stays, and a retry sent after it is answered, at any later time, with it alone |
| Overrun.LonePlacement | api/internal/order/order_service.go:71-115 | an acceptable placement that has the database to itself runs to its commit |
| Overrun.SecondClaim | api/internal/idempotency/idempotency_service.go:65-80 | from any reachable world, past the window a second claimant is granted the key while the first still works |
| Overrun.WindowIsNeeded | api/internal/idempotency/idempotency_service.go:65-80 | two equal requests that the shop can serve both end, in some run without a lost response, with both orders in the tables |
| Overrun.TwoOrdersForOneKey | api/internal/idempotency/idempotency_service.go:15-15 | such a run, from two units in stock and one connection |

## Left out

- AggregatedCheckSuffices: quantities from 1 to 2^31 - 1 in at most 2^32 lines, since a longer list could wrap the 64-bit sum; `DecrementRefusedIff` covers all quantities.
- PlacePermuted: the same range; out of it the first refused line depends on the order of the lines.
- OneOrderPerKey: assumes that the key's claimants finish within the window and save the response of a placed order; the response update is unconditional, and `WindowIsNeeded` builds the second order that lateness allows.
- TotalIsExactIff: quantities from 1 to 2^31 - 1; `TotalIsStoredIff` covers all quantities.
- BuyersShareTheShelf: no buyer's connection is lost and the catalogue does not change during the race.
- CancelOrder: item rows are taken to satisfy their column's constraint (1 to 2^31 - 1).
- SortByKey: stands for `sort.Slice`, whose algorithm is the library's; the model uses an insertion sort.
- Pay: the unique index on provider and transaction id is not modelled; provider ids are taken to be fresh.
- The statement machine sorts item rows one fixed way; that the order among equal products does not matter is proved for the service (`CancelOrder`, `RestockPermuted`).
- A commit whose acknowledgement is lost: an abort here always means nothing was written.
- Charges of payments that abort after the provider answered: only committed charges are counted.
- The single-statement connections that claims and reads take from the pool; they hold nothing while waiting.
- The users table and its foreign keys, and product names and descriptions with their unique constraint.
- HTTP, JSON, JWT, SHA-256 (an opaque value), timestamps other than a claim's, and JSONB normalisation.
- Read-only endpoints, pagination, the login rate limiter, health, logging, tracing and metrics.
