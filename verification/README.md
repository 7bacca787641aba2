# Limited goods: the stock, order and payment ledger

Buyers hold several items of a limited sale at once, pay within a hold window, and workers settle
the payments with an outside provider that may answer late, twice or not at all. This project
models that ledger with everything that acts on it, and proves what must survive every
interleaving.

| file | contents |
|---|---|
| `Collections.dfy`, `Keys.dfy` | sums over table rows, `order by`; the basket fingerprint and the advisory-lock key |
| `LedgerSpec.dfy` | the rows, and for each write transaction its decision and its effect as functions |
| `Invariant.dfy`, `Evolution.dfy`, `Effects.dfy` | what every transaction keeps, what never changes back, and what each transaction does row by row |
| `Provider.dfy`, `Protocol.dfy`, `Agreement.dfy` | durable receipts; buyers, workers, provider, callbacks and sweeps as one transition system; its invariant |
| `RunProperties.dfy`, `Settlement.dfy` | safety over every run: stock, limits, statuses, agreement, deadlines, idempotency, hold window, exactly-once, leases |
| `Refusals.dfy` | every answer of the write transactions, said on the rows: when exactly each is given |
| `Answers.dfy`, `Deadlines.dfy`, `Continuations.dfy` | first and repeated questions to the provider, lost responses; whose deadline a work carries; what any continuation makes of an open payment |
| `Runs.dfy` | two written-out runs |
| `Services.dfy`, `PurchaseTransaction.dfy`, `PurchaseFront.dfy` | the services as methods over mutable tables, loop by loop, each proved equal to its specification |
| `Gate.dfy`, `GateHistory.dfy` | the admission gate, its reference that never forgets, and its bounds; its decisions read off the history alone |
| `Locks.dfy` | row and advisory locks of any number of transactions |
| `Catalog.dfy`, `Worker.dfy` | the catalog projection; drain, expiry sweep, execution slots and the provider's store |

A transaction that takes the key lock or the order lock is one step. `PaymentService.work` takes no
lock, so its two reads are two steps (`ReadAttempt`, `ReadHold`) with anything in between. Works and
answers are never removed from the system: they may be used any number of times, in any order,
arbitrarily late or never, and a worker that crashes simply takes no further step. Every clock
reading is a parameter of its step; a transaction that reads the clock two or three times has two
or three independent readings, and no result about the ledger assumes that readings are ordered.
The gate's results assume that the Redis server's own clock does not run backwards.

The protocol makes one assumption about its environment (`Protocol.Enabled`): a result reported to
the ledger is unknown, or the provider has once sent it. Workers may read, submit and report at any
time, with or without a claim, and a claim may lease any claimable attempt, since `skip locked` passes
over the others; this allows more than the code does.

One place where the code falls short of the project's documents: `PROJECT.md` line 22 says that asking
the provider again about a processed request gives the same result, while a delayed success answers
unknown until it matures. `Runs.AnswerChanges` is such a run, and `Answers.SameAnswerForEver` says
exactly when the promise holds.

## Model

| member | source | states |
|---|---|---|
| `RunProperties.StockLedger` | src/test/java/com/limitedgoods/ContractTest.java:54-62 | in every reachable state and for every item: total = available + held + sold, none negative, held is the sum over pending and processing orders, sold the sum over confirmed ones |
| `RunProperties.PerUserLimit` | src/main/java/com/limitedgoods/purchases/OrderRepository.java:25-30 | in every reachable state the quantities of a user over all of his orders that are not expired stay within the item's limit, across keys, expiries and retries |
| `RunProperties.AmountsFit` | src/main/resources/db/migration/V1__initial.sql:17 | every stored order amount is positive and at most 2·10^16, far inside a signed 64-bit number |
| `RunProperties.StatusCoupling` | src/main/java/com/limitedgoods/payments/PaymentService.java:33-46 | order, hold and attempt statuses determine each other in both directions in every reachable state: processing iff some attempt is open, confirmed iff some attempt succeeded, hold active iff pending or processing |
| `RunProperties.OneLiveAttempt` | src/main/resources/db/migration/V1__initial.sql:42-43 | an order never has two attempts that have not failed, nor two attempts with one key |
| `RunProperties.NeverReleasedStock` | src/main/java/com/limitedgoods/reservations/ReservationService.java:26-28 | the exception for confirming released stock is unreachable for any call, any result and any clocks |
| `RunProperties.LedgerAgreesWithProvider` | src/main/java/com/limitedgoods/payments/PaymentService.java:64-76 | over every run with lost, stale and repeated messages, a final attempt has a receipt with the same result, amount and scenario |
| `RunProperties.DeadlineSafety` | src/main/java/com/limitedgoods/mockpg/MockPaymentStore.java:18-23 | an attempt succeeds only if the provider's first acceptance read a clock strictly before that attempt's own creation plus payment window; it fails only on a late first acceptance or the failure scenario |
| `RunProperties.StaleDeadlineHarmless` | src/main/java/com/limitedgoods/payments/PaymentService.java:51-55 | a work that carries a deadline other than its attempt's own meets an existing receipt, and then no deadline whatever changes the provider's effect |
| `Deadlines.OwnDeadlineExactlyWhen` | src/main/java/com/limitedgoods/payments/PaymentService.java:46-54 | in every reachable state the second read of a work gives the attempt its own deadline if and only if the last payment started for the order has the same creation time |
| `Deadlines.OwnDeadlineWithoutStart` | src/main/java/com/limitedgoods/payments/PaymentService.java:46-54 | whatever else happens between the two reads, the work has its own deadline if no payment of the order starts there |
| `Runs.ForeignDeadlineArises` | src/main/java/com/limitedgoods/payments/PaymentService.java:46-54 | a written-out run in which a work for a failed attempt carries the deadline of the retry |
| `RunProperties.ReceiptsAreFinal` | src/main/java/com/limitedgoods/mockpg/MockPaymentStore.java:24-37 | a receipt keeps its amount, acceptance time and deadline for ever, and a final result in it never changes |
| `Answers.SameAnswerForEver` | PROJECT.md:22 | after a first answer every later question, in every continuation of the run and at every clock reading, is answered with the same result if and only if the answer was not "unknown" for a delayed success |
| `Answers.AskAgain` | src/main/java/com/limitedgoods/mockpg/MockPaymentStore.java:28-39 | a repeated question is always answered, never lost, and its result differs from the stored one exactly when a delayed success was unknown and has matured since, by another question or by this reading |
| `Runs.AnswerChanges` | src/main/java/com/limitedgoods/mockpg/MockPaymentStore.java:33-37 | a written-out run in which a delayed success is answered unknown and three seconds later succeeded |
| `RunProperties.NoDeliveryIsRefused` | src/main/java/com/limitedgoods/payments/PaymentService.java:63-65 | no answer ever sent by the provider is refused by the ledger: amount mismatch, result conflict and released stock are unreachable for it, however late or repeated |
| `RunProperties.NoSubmissionIsRefused` | src/main/java/com/limitedgoods/mockpg/MockPaymentStore.java:28-31 | every work a worker has read is accepted by the provider: the idempotency conflict is unreachable |
| `RunProperties.FinalStays` | src/main/java/com/limitedgoods/payments/PaymentService.java:64-69 | confirmed and expired orders, final attempts and their terminal times never change in any continuation of a run |
| `RunProperties.OneOrderPerKey` | src/main/java/com/limitedgoods/purchases/PurchaseTransactionService.java:35-44 | at most one order per (user, key) in every reachable state |
| `RunProperties.ReplayForEver` | src/main/java/com/limitedgoods/purchases/PurchaseTransactionService.java:37-44 | after a purchase, in every later state a request with its key gets the same order back exactly when it asks for the same sale and the same item quantities in any order, is refused otherwise, and changes nothing |
| `RunProperties.PaymentReplayForEver` | src/main/java/com/limitedgoods/payments/PaymentService.java:33-37 | after a payment start, in every later state a request with its key gets that attempt back exactly when the scenario is the same, is refused otherwise, and changes nothing |
| `RunProperties.ItemOrderIrrelevant` | src/main/java/com/limitedgoods/purchases/PurchaseRequest.java:12-13 | listing the items of a basket in another order changes neither the decision nor the resulting ledger |
| `Effects.AllOrNothing` | src/main/java/com/limitedgoods/purchases/PurchaseTransactionService.java:56-87 | a refusal or a replay leaves the ledger unchanged; a placed purchase moves exactly each listed quantity from available to held, touches no other item, and adds one pending order with those lines, the total price of the basket and an active hold |
| `Effects.BasketAmount` | src/main/java/com/limitedgoods/purchases/PurchaseTransactionService.java:71-72 | the total summed over the locked rows is the price of the basket summed in the order of the request |
| `Effects.FailureOutcome` | src/main/java/com/limitedgoods/payments/PaymentService.java:73-75 | a failed result leaves the order payable with stock untouched while the hold lasts, and afterwards expires it and gives back exactly each line's quantity |
| `Effects.ExpiryOutcome` | src/test/java/com/limitedgoods/ContractTest.java:123-129 | an expiry gives back exactly the stock of the order and the allowance of its user, once: a second expiry changes nothing |
| `Settlement.PayOrExpire` | src/main/java/com/limitedgoods/payments/PaymentService.java:38-41 | for a pending order, at any one instant exactly one of "a new payment starts" and "the sweep releases the stock" holds |
| `Settlement.UnresolvedKept` | src/main/java/com/limitedgoods/reservations/ReservationService.java:49-55 | no sweep at any clock reading releases the stock of an unresolved payment |
| `Settlement.ReleasedOnlyAfterWindow` | src/main/java/com/limitedgoods/reservations/ReservationService.java:20-24 | in every run stock is released only by a sweep or a failed result whose own clock reading is at or after creation plus hold seconds, and only when every attempt of the order has failed |
| `Settlement.ExactlyOnce` | src/test/java/com/limitedgoods/ContractTest.java:130-138 | any interleaving of repeated successes, late unknown results and sweeps ends with the stock, orders and holds of one success alone and the first success's terminal time; without a success nothing moves |
| `Settlement.LeaseSpacing` | src/main/java/com/limitedgoods/worker/PaymentJobs.java:14-24 | after a claim of any claimable attempt, no claim that skips any set of locked rows can lease it again unless it reads a clock at least 10 s later, or an unknown result applied in between had its reading at least 1 s earlier |
| `Continuations.SettledExactlyOnce` | src/test/java/com/limitedgoods/ContractTest.java:130-138 | in any continuation of a run by any events of the whole system, an open payment ends succeeded exactly if a success was reported, with the time of the first report, and then the rows and the stock of its order are those of one success alone; while it stays open they do not change |
| `Continuations.RecoverableExactlyWhen` | PROJECT.md:23-24 | from every reachable state an open payment has a continuation that finishes it if and only if the provider has not accepted it in time under the scenario that is never resolved |
| `Invariant.PlacedExactlyWhen` | src/main/java/com/limitedgoods/purchases/PurchaseTransactionService.java:35-69 | a purchase takes stock if and only if the items are distinct, the key is unused, the sale is open, no item is remembered as empty, the ticket has not expired and every item is in the sale, in stock and within the user's limit |
| `Refusals.EarlyRefusals` | src/main/java/com/limitedgoods/purchases/PurchaseTransactionService.java:32-57 | said on request and rows: exactly when a purchase is refused for a repeated item, an unknown sale, a sale not yet open, an expired ticket or an item outside the sale, the order of the checks included |
| `Refusals.ItemRefusals` | src/main/java/com/limitedgoods/purchases/PurchaseTransactionService.java:50-69 | temporarily unavailable iff an item is remembered as empty, or the smallest listed item that does not fit has too little stock; user limit iff that item has the stock and exceeds the limit; placed iff every item fits |
| `Refusals.KeyAnswers` | src/main/java/com/limitedgoods/purchases/PurchaseTransactionService.java:37-44 | an order with the key is replayed iff its fingerprint is that of the request and the key is refused as reused otherwise; no other answers exist |
| `Invariant.PurchaseKeepsValid` | src/main/java/com/limitedgoods/purchases/PurchaseTransactionService.java:29-88 | a purchase keeps the whole ledger invariant |
| `Invariant.StartKeepsValid` | src/main/java/com/limitedgoods/payments/PaymentService.java:28-48 | starting a payment keeps the ledger invariant |
| `Invariant.ApplyKeepsValid` | src/main/java/com/limitedgoods/payments/PaymentService.java:56-78 | applying any result keeps the ledger invariant |
| `Invariant.ExpireKeepsValid` | src/main/java/com/limitedgoods/reservations/ReservationService.java:48-55 | an expiry keeps the ledger invariant |
| `Invariant.ClaimKeepsValid` | src/main/java/com/limitedgoods/worker/PaymentJobs.java:13-25 | a claim of any claimable attempt keeps the ledger invariant |
| `Invariant.CreateSaleKeepsValid` | src/main/java/com/limitedgoods/sales/SaleService.java:19-24 | registering a sale keeps the ledger invariant |
| `Evolution.ApplyEvolves` | src/main/java/com/limitedgoods/payments/PaymentService.java:56-78 | applying a result undoes no final status, no fixed fact of a row and no sold unit |
| `Provider.AcceptGrows` | src/main/java/com/limitedgoods/mockpg/MockPaymentStore.java:17-40 | an acceptance keeps the facts of every receipt, changes a result only from unknown, and leaves the receipt consistent with its acceptance time and deadline |
| `Agreement.ReadHoldKeeps` | src/main/java/com/limitedgoods/payments/PaymentService.java:51-55 | the second unlocked read of a work finds the attempt's own deadline or an attempt that already has a receipt; the protocol invariant is kept |
| `Agreement.SubmitKeeps` | src/main/java/com/limitedgoods/mockpg/MockPaymentStore.java:17-40 | a submission, late or repeated, keeps the protocol invariant |
| `Agreement.DeliveryAgrees` | src/main/java/com/limitedgoods/payments/PaymentService.java:57-78 | a delivered result leaves every final attempt in agreement with its receipt |
| `Agreement.RunKeepsInv` | src/main/java/com/limitedgoods/payments/PaymentService.java:51-78 | the invariant of ledger, receipts and messages holds after every run, for any interleaving and any clock readings |
| `Agreement.RunMoves` | src/main/java/com/limitedgoods/payments/PaymentService.java:64-76 | rows, final statuses and receipts only move forward along every run |
| `Database.LockItems` | src/main/java/com/limitedgoods/sales/SaleRepository.java:14-18 | the existing rows among the ids, each once, in ascending id order |
| `ReservationService.AllRowsMoved` | src/main/java/com/limitedgoods/reservations/ReservationService.java:41-44 | moving the locked rows one by one is the simultaneous move of the whole order |
| `ReservationService.MoveStockOf` | src/main/java/com/limitedgoods/reservations/ReservationService.java:36-45 | the stock loop moves exactly the order's quantities from held to sold or to available |
| `ReservationService.Confirm` | src/main/java/com/limitedgoods/reservations/ReservationService.java:26-30 | confirms an active hold with its stock, or fails without a change |
| `ReservationService.ReleaseHold` | src/main/java/com/limitedgoods/reservations/ReservationService.java:31-35 | releases an active hold with its stock and leaves any other hold alone |
| `ReservationService.ExpireOrder` | src/main/java/com/limitedgoods/reservations/ReservationService.java:48-55 | expires exactly a pending order whose active hold is over, answers whether it did, keeps the ledger invariant |
| `ReservationService.ReadDue` | src/main/java/com/limitedgoods/reservations/ReservationRepository.java:11-17 | the due orders, at most 100 |
| `ReservationService.DueOldestFirst` | src/main/java/com/limitedgoods/reservations/ReservationRepository.java:11-17 | the batch is every pending order whose active hold is over, or a hundred of them, the oldest hold first, and none left out has an older hold |
| `PaymentService.ScanAttempts` | src/main/java/com/limitedgoods/payments/PaymentService.java:34-38 | the loop finds the attempt with the key, or tells whether some attempt has not failed |
| `PaymentService.StartPayment` | src/main/java/com/limitedgoods/payments/PaymentService.java:28-48 | answer and new tables are the decision and the effect of the specification, whose answers `Refusals.StartAnswers` fixes; keeps the ledger invariant |
| `Refusals.StartAnswers` | src/main/java/com/limitedgoods/payments/PaymentService.java:30-41 | every answer to a payment start on the rows: order not found iff the order is missing or another user's, before any key is looked up; then known, key reused, blocked and hold over each exactly when it applies |
| `Refusals.KnownOnlyToOwner` | src/test/java/com/limitedgoods/ContractTest.java:162-167 | in every reachable state a payment is shown only to the user of its order, for its own key and scenario |
| `PaymentService.ReadWork` | src/main/java/com/limitedgoods/payments/PaymentService.java:51-55 | nothing for a missing or final attempt; otherwise a work with the attempt's facts and the deadline the hold has in a later state, after any transactions in between: its own unless the attempt has failed meanwhile |
| `PaymentService.ApplyResult` | src/main/java/com/limitedgoods/payments/PaymentService.java:56-78 | answer and new tables are the decision and the effect of the specification, with rollback on an exception, whose answers `Refusals.ApplyAnswers` fixes; keeps the ledger invariant |
| `Refusals.ApplyAnswers` | src/main/java/com/limitedgoods/payments/PaymentService.java:59-67 | not found, amount mismatch, result conflict, ignored and applied each exactly when it applies; a conflict only between the two final results |
| `Refusals.AppliedRow` | src/main/java/com/limitedgoods/payments/PaymentService.java:68-71 | the attempt row after an applied result, next check one second later and the lease gone; no other attempt changes |
| `Refusals.SweptExactlyWhen` | src/main/java/com/limitedgoods/reservations/ReservationService.java:49-55 | in every reachable state a sweep releases an order if and only if it is pending and its hold seconds are over by the reading of the sweep |
| `PaymentJobs.ClaimJob` | src/main/java/com/limitedgoods/worker/PaymentJobs.java:13-25 | leases for 10 s the claimable attempt, among those no other transaction has locked, whose next check is earliest, the smaller id first among equals; none only if all are locked; no other row changes |
| `Refusals.LeasedExactlyWhen` | src/main/java/com/limitedgoods/worker/PaymentJobs.java:18-23 | in every reachable state a claim leases an attempt iff it is open, its check is due and its lease is over |
| `PurchaseTransactionService.CheckStocks` | src/main/java/com/limitedgoods/purchases/PurchaseTransactionService.java:60-69 | the check loop returns the first refusal in lock order, which `Refusals.ItemRefusals` says on the rows |
| `PurchaseTransactionService.TotalAmount` | src/main/java/com/limitedgoods/purchases/PurchaseTransactionService.java:72 | the accumulated amount is the amount of the order lines |
| `PurchaseTransactionService.TakeStocks` | src/main/java/com/limitedgoods/purchases/PurchaseTransactionService.java:76-81 | the change loop holds exactly the wanted quantities and writes one line per row |
| `PurchaseTransactionService.FreshView` | src/main/java/com/limitedgoods/purchases/PurchaseTransactionService.java:84-85 | the answer built without queries is what the queries would return |
| `PurchaseTransactionService.PurchaseOrder` | src/main/java/com/limitedgoods/purchases/PurchaseTransactionService.java:29-88 | answer, view and new tables are those of the specification on every path, whose answers the lemmas of `Refusals` fix; keeps the ledger invariant |
| `Refusals.ViewShows` | src/main/java/com/limitedgoods/purchases/OrderQueryService.java:22-27 | a view shows the order's own row, its hold and exactly its own attempts with their status and scenario |
| `Refusals.SaleCreated` | src/main/java/com/limitedgoods/sales/SaleService.java:20-24 | a new sale has the given opening time and items with their price, limit and total, all on sale; every other row stays |
| `Refusals.IdentityRule` | src/main/java/com/limitedgoods/config/Identity.java:5-8 | user and key are accepted iff each has at most 100 characters, one of them not white space |
| `MockPaymentStore.Store.AcceptWork` | src/main/java/com/limitedgoods/mockpg/MockPaymentStore.java:17-40 | reply and stored receipts are those of the specification, which `Answers.FirstAnswer` and `Answers.AskAgain` fix, with rollback on a conflict |
| `Answers.FirstAnswer` | src/main/java/com/limitedgoods/mockpg/MockPaymentStore.java:18-39 | in every reachable state an answer is lost if and only if the attempt has the lost-response scenario and the provider has not been asked about it before; the first result follows from the scenario and from whether the payment window is over |
| `Answers.FirstReceipt` | src/main/java/com/limitedgoods/mockpg/MockPaymentStore.java:24-27 | the first question stores the facts of the attempt, its own reading and the first result |
| `Answers.LostResponseRecovers` | src/test/java/com/limitedgoods/ContractTest.java:181-195 | with a lost response the first job leaves the payment unknown and the second succeeded if the first question came inside the payment window, failed otherwise |
| `Answers.RefusedQuestions` | src/main/java/com/limitedgoods/mockpg/MockPaymentStore.java:28-31 | exactly which questions the provider refuses, and that a refused one changes nothing |
| `PurchaseService.Visiting` | src/main/java/com/limitedgoods/purchases/PurchaseService.java:23-46 | the order of ticket check, replay, freshness, gate and transaction, and what each outcome leaves in the tables and in the gate; a new token stays in the gate exactly when it was admitted and either the admitting reply was lost or Redis could not be reached to return it |
| `PurchaseService.FrontAnswers` | src/main/java/com/limitedgoods/purchases/PurchaseService.java:24-33 | every answer given before the gate, each exactly when it applies: identity, repeated item, missing or foreign ticket, reused key, replay and expired ticket, in this order |
| `PurchaseService.TicketBinds` | src/main/java/com/limitedgoods/config/AdmissionTicket.java:29-41 | a ticket issued for a basket passes iff user and key are its own and the basket has the same sale and item quantities, in any order |
| `PurchaseService.CommittedReplayNeedsNothing` | src/main/java/com/limitedgoods/purchases/PurchaseService.java:27-31 | a committed purchase is answered to the holder of a matching ticket before the gate in every later state, whatever the ticket's expiry, the gate, the stock or the sale |
| `AdmissionGate.GateRefinesLog` | src/main/java/com/limitedgoods/admission/AdmissionGate.java:14-26 | on every history the gate whose two keys expire makes the same decisions as one that keeps all time stamps for ever |
| `GateHistory.PermitsNeverExceeded` | src/main/java/com/limitedgoods/admission/AdmissionGate.java:16-17 | read off the history and the decisions alone: after any history, at any later time, the tokens admitted less than 10000 ms ago that have not left never exceed the permits |
| `GateHistory.AdmittedExactlyWhen` | src/main/java/com/limitedgoods/admission/AdmissionGate.java:16-26 | on every history a request is admitted if and only if fewer than the permits were admitted less than 10000 ms ago and have not left, and, with a rate, every earlier admission is at least ceil(1000/rate) ms ago |
| `GateHistory.KeysVanish` | src/main/java/com/limitedgoods/admission/AdmissionGate.java:22-25 | after an admission the permit key vanishes 11000 ms later and the rate key one second after the next admission is allowed |
| `AdmissionGate.RateBound` | src/main/java/com/limitedgoods/admission/AdmissionGate.java:18-23 | with a rate, admissions are at least ceil(1000/rate) ms apart, and any window of w ms holds at most w / ceil(1000/rate) + 1 |
| `AdmissionGate.Gate.TryEnter` | src/main/java/com/limitedgoods/admission/AdmissionGate.java:40-53 | the script's effect and answer, the disabled gate, and both kinds of failure |
| `Locks.AllAscend` | src/main/java/com/limitedgoods/sales/SaleRepository.java:14-18 | purchase, start, apply, expire and claim each ask for their locks in ascending rank |
| `Locks.LocksTaken` | src/main/java/com/limitedgoods/reservations/ReservationService.java:25-38 | exactly which locks each transaction takes: key and items, order, items only if stock moves, attempt |
| `Locks.RunSound` | src/main/java/com/limitedgoods/purchases/OrderRepository.java:18 | no lock is ever held by two transactions, over every run of the lock table |
| `Locks.NoWaitCycle` | src/main/java/com/limitedgoods/sales/SaleRepository.java:14-18 | the wait-for graph of every reachable lock table has no cycle, for any number of transactions |
| `Locks.LeadsToRunnable` | src/main/java/com/limitedgoods/reservations/ReservationService.java:25-38 | from any transaction, following holders of wanted locks ends at one that can take its lock or commit |
| `Locks.AllCanCommit` | src/main/java/com/limitedgoods/purchases/PurchaseTransactionService.java:35-52 | from every reachable lock table all running transactions can commit without aborting any |
| `SaleCatalogPublisher.ShelfMeaning` | src/main/java/com/limitedgoods/sales/SaleCatalogPublisher.java:37-40 | a sale is available iff some item has stock to sell, and sold out iff every item is sold completely |
| `SaleCatalogPublisher.SoldOutForEver` | src/main/java/com/limitedgoods/sales/SaleCatalogPublisher.java:38-39 | once sold out, a sale is sold out in every later state of every run |
| `SaleCatalogPublisher.ExpiryReopens` | src/main/java/com/limitedgoods/sales/SaleCatalogPublisher.java:38-39 | an expiry makes the sale of its order available again, so fully held is not final |
| `SaleCatalogPublisher.Refresh` | src/main/java/com/limitedgoods/sales/SaleCatalogPublisher.java:28-44 | each key a refresh writes says the opening time of its sale in whole milliseconds, available iff some item has stock to sell and sold out iff all items are sold; every other key is left alone, and all sales with items are written unless Redis fails, which ends the loop |
| `Worker.Resolve` | src/main/java/com/limitedgoods/payments/PaymentProvider.java:19-33 | what `Answers.Heard` makes of the reply when it arrives, the result unless it was lost or refused, and unknown on any failure |
| `Worker.RunJob` | src/main/java/com/limitedgoods/worker/Worker.java:49-55 | one job leaves its attempt with the status of what was heard, without an exception, and nothing else becomes due |
| `Worker.Drain` | src/main/java/com/limitedgoods/worker/Worker.java:43-57 | alone and at a standing clock, a drain claims due attempts only, each at most once, and every job is applied without an exception, whatever happens to its calls; unless stopped or interrupted it ends with none due |
| `Worker.SweepDue` | src/main/java/com/limitedgoods/worker/Worker.java:65-67 | a sweep, reading the clock once for its batch and once for every order, expires exactly the orders of the batch whose holds are over at their own reading; if the readings do not run backwards the other due orders remain due |
| `Worker.Slots.Dispatch` | src/main/java/com/limitedgoods/worker/Worker.java:37-42 | free permits and unfinished drains add up to the concurrency through submissions, endings and rejections; without either every slot is filled |
| `Worker.Slots.Shutdown` | src/main/java/com/limitedgoods/worker/Worker.java:68 | after a shutdown drains and permits never exceed the concurrency |
| `Keys.FingerprintCanonical` | src/main/java/com/limitedgoods/purchases/PurchaseRequest.java:9-14 | two valid baskets have equal fingerprints if and only if they have the same sale and the same item-to-quantity table |
| `Keys.FingerprintLength` | src/main/java/com/limitedgoods/purchases/Order.java:11 | a fingerprint has at most 936 characters, inside the 1000-character column |
| `Keys.FingerprintLengthReached` | src/main/java/com/limitedgoods/purchases/PurchaseRequest.java:7-8 | the bound is met by every accepted basket of twenty items with a million each |
| `Keys.FingerprintOfTwo` | src/main/java/com/limitedgoods/purchases/PurchaseRequest.java:12-13 | the text of a basket of two, however listed, with the item first whose signed words come first |
| `Keys.TextReads` | src/main/java/com/limitedgoods/purchases/PurchaseRequest.java:12 | the id text has its hyphens in place and its 32 digits denote the id |
| `Keys.DecimalReads` | src/main/java/com/limitedgoods/purchases/PurchaseRequest.java:13 | the quantity text denotes the quantity without a leading zero |
| `Keys.JavaOrderFlips` | src/main/java/com/limitedgoods/purchases/PurchaseRequest.java:12 | the order of java.util.UUID is that of the ids with both sign bits flipped |
| `Keys.SortAscends` | src/main/java/com/limitedgoods/purchases/PurchaseRequest.java:12 | sorting by java.util.UUID order (signed words) gives a strictly ascending list |
| `Keys.LockKeyInjective` | src/main/java/com/limitedgoods/purchases/OrderRepository.java:8-12 | the advisory-lock text determines user and key |

## Left out

- Worker.Drain: the clock stands still and no other actor runs; an infrastructure exception, which the claimed lease recovers from, is not in it.
- Worker.SweepDue: no other actor runs between its expiries; interleaved expiries are the `Sweep` events of the protocol.
- SaleCatalogPublisher.Refresh: the five-second expiry of the keys it writes and the advisory lock of the publisher are not modelled.
- Worker.Slots.Shutdown: the executor's queue is a number of dropped drains; threads and their interruption are not modelled.
- JPA entities are rows of tables (values of maps) that the services replace; identity and aliasing of entity objects, flushing and SQL planning are not modelled.
- PostgreSQL is assumed to give row locks, READ COMMITTED statements, primary keys and rollback on an exception; a colliding random id is the refusal `DuplicateId`.
- Row locks on a hold, and the insertion of new rows, are taken only under the lock of their order or key and are not separate locks in `Locks.dfy`; two keys with the same hash share a `KeyLock`.
- Validation annotations are the preconditions `Validated` and `ValidSale`; the blank test knows the ASCII whitespace characters only; names of sales and items are not stored.
- `SaleService.create` is one step without its loop.
- The one-second negative cache is a set of remembered items given with each purchase; writing it is not modelled. It can only refuse.
- The payments of a view are a map, not the list ordered by creation.
- Time stamps are whole microseconds; rounding of nanoseconds by the database is not modelled.
- An admission ticket is absent, unverifiable or a verified claim; HMAC, Base64, JSON and the 8192-character limit are not modelled.
- HTTP is `Delivered`, `NoAnswer` or `NotSent`, and every failure is an unknown result; controllers, secrets and error mapping are left out.
- The waiting queue (`WaitingService` and its Lua script) and the removal of a finished ticket from its ready set.
- Lua's number formatting in Redis, traces, metrics, logging and configuration.
- Liveness under a schedule: that workers do take the steps `RecoverableExactlyWhen` finds, fairness between users and performance. A payment whose result stays unknown keeps its stock for ever, as the code intends.
- The attempt status PROCESSING is in the schema but no code writes it; it counts as open.
