# TicketBox, verified

A Dafny model of how this ticket shop sells, admits and queues, with proofs of what its services keep.
Verify everything with `dafny verify dfyconfig.toml`.

**Orders and inventory.** Stock, per-user limits and reservations live in Redis; ticket types, counters,
orders and tickets live in Postgres. `Ledger` states what each service call does to both stores,
`Services` holds the calls themselves as methods over the two stores (`Tables`) and proves that they
compute exactly that. `Books` defines the invariant: the Postgres counters are exact folds over orders and
tickets, and Redis never promises more than Postgres has. `BooksSteps`, `StoresSteps` and `Lifecycle`
prove it call by call, `Runs` for whole runs with lapsing keys, Redis flushes and replays.
`OrderCalls` and `CronRuns` say what each call comes to in rows, keys and answers alone.
`Interleaving` is about traces of single scripts and statements. `OrderTasks` cuts the calls themselves
into their scripts, statements and transactions and lets them interleave and crash; `OrderTally` and
`OrderRuns` keep the exact account of every counter, `OrderHistory` and `OrderLocks` say when counters
are exact, `OrderStock` when the Redis keys stay safe and `OrderDebt` when a type can be oversold;
`OrderRace` ties the tasks to the service calls and shows a run that does.

**Check-in.** `Venue` holds tickets, gates and the check-in log. `Sync` is about batches of offline scans,
`CheckinService` is the service, `CheckinInterleaving` interleaves its statements. `OfflineQueue` and
`OfflineCheckin` add the scanning device and prove when device and server converge; `TicketCodes` follows a
ticket's code from its text to the log.

**Gates.** `Gates`, `GateBalance`, `GateMoves` and `GateService` cover the least-loaded choice, rename,
removal and rebalance; `VenueRuns` proves that signatures stay valid over whole runs of all of it.

**Waiting room, request bodies, QR codes.** `WaitingRoom` and `WaitingRoomRuns`, `Normalize`, `QrPayload`.

## Where the code does not do what it is described to do

The model follows the code. Each point below has a lemma that shows it, and one that says exactly when it
does not happen.

- An order that was inserted cannot be deleted again: its item rows refer to it with ON DELETE RESTRICT
  (`src/backend/prisma/migrations/20260602150004_init_schema/migration.sql:336`). So a failed inventory
  transaction or payment gateway leaves the order pending, while
  `blueprint/specs/order-reservation.md:209-216` promises a full rollback. Cancelling that row later
  subtracts its quantity a second time (`Lifecycle.FailedCreateRestores`, `Runs.StrandedThenCancelled`).
- All items of an order share one reservation key, so an order of two or more items is always refused
  (`Lifecycle.ManyItemsAreRefused`); if the first item is refused and a later one accepted, the rollback
  does not reach the accepted one and its units stay out of stock until the next seed
  (`Lifecycle.CreateOrderKeeps`, `Runs.RefusedOrderTakesSecondType`).
- A reservation key lives as long as its order may be pending. When it lapses first, the units do not come
  back to Redis, so the stock key is a lower bound and not an exact figure (`Runs.StepKeeps`).
- Cancel, expire and the success webhook test the status and act on it in different statements. When a
  cancel races a success webhook the units are subtracted twice and sold once, Redis offers them again,
  and a type can sell twice what it has (`OrderRace.CancelAgainstWebhookOversells`). Counters are exact
  throughout exactly when every order is counted before it is taken and taken once
  (`OrderHistory.ExactIffTakenOnce`); excluding calls on one order from each other is enough
  (`OrderLocks.LockedShopIsNotOversold`).
- The FAILED webhook and the cron release skip an order that has moved on, but still run the release
  script. If the order was marked paid and its key lives, Redis offers its units again
  (`Lifecycle.LateReleaseIff`, `Runs.PaidTicketsAreOfferedAgain`). The key can still live: the cron marks orders
  that are past their hold time, which is computed at
  `src/backend/src/modules/order/order.service.ts:346`, before the equally long lifetime of the key starts at
  lines 380-391.
- After Redis lost a stock key, the lazy seed can fall between the reserve script of one order and its
  inventory transaction, and then promises those units a second time (`OrderStock.SeedIsSafeIff`,
  `OrderStock.SeedBeforeCountPromisesTwice`).
- A check-in log row refers to its ticket by a foreign key, so a scan of an unknown ticket cannot be
  logged as INVALID_TICKET. An offline record of one makes the whole sync request fail, each time, and the
  device never marks anything as synced (`OfflineQueue.ConvergesIff`, `OfflineQueue.BlockedForever`).
- A sync retried while its first delivery is still handled can check a ticket in and log only
  REJECTED_CONFLICT (`CheckinInterleaving.TwiceAtOnceLosesTheSuccess`); the log tells who is in exactly when
  it refused no SUCCESS row, which retries in turn never make it do (`CheckinInterleaving.LogTellsIff`,
  `CheckinInterleaving.LogTellsWhoIsIn`).
- The duplicate guard forgets a rejected ticket only if the first answer arrives: a replay reports the
  rejection as a success (`OfflineQueue.LostAnswerKeepsTheGuard`).
- A gate can be renamed to the empty string. Tickets sent there are stored without a gate and never
  counted, so soon all of them are (`NamelessGates.FewGetNamed`, `NamelessGates.AllGetNamedIff`). Rename and
  removal pick tickets by gate name alone, so they move those of other concerts too; the lemmas are stated
  over all concerts.
- A concert without gates issues tickets without one, and so does a nameless gate; the check-in service lets
  them in anywhere (`src/backend/src/modules/checkin/checkin.service.ts:103`), but their code ends with an empty
  field (`src/backend/src/modules/ticket/ticket.service.ts:34-48`), which the scanner refuses to read
  (`TicketCodes.OwnCodeGetsInIff`).
- The waiting room reads the clock several times in one join, so its limit is exact for recorded join times
  and off by that drift for session times (`WaitingRoomRuns.SafeWindowIff`).
- Normalising a request body assigns each member to a plain object, so a member named `__proto__` is lost
  and two different bodies can hash alike (`Normalize.CanonicalForm`, `Normalize.ProtoIsLost`).

## How the model is set up

- Ids, tokens, random waits and clock readings are parameters; new ids are new (`Lifecycle.Fresh`,
  `Gates.FreshPlans`). SHA-256 and HMAC are arbitrary functions. Whether an insert, a transaction, the
  gateway or a network message gets through is a parameter too.
- Query results whose order the code does not fix (gates, unsynced records, tickets with equal creation
  times) are any listing of the right rows; the proofs hold for each. Sorting by name uses the database's
  collation, which is not modelled.
- Database transactions are taken as serial, one step each. Those that read the status again do it with a plain
  read, so at Postgres's default isolation level two of them may both see a pending order; that the model does
  not show. A lazy seed likewise reads Postgres and sets its key in one step.
- In the theorems of `Runs` and `VenueRuns` a service call is one step; `Interleaving`, the `Order` modules and
  `CheckinInterleaving` give up that atomicity. A batch's records are separate tasks there, which allows more orders than the batch loop does.

## Model

| member | source | states |
|---|---|---|
| Runs.StepKeeps | src/backend/src/modules/order/order.service.ts:341-633 | one call, key lapse or flush keeps the whole invariant if and only if it strands no order; then every present key stays exact if and only if nothing is lost between the stores |
| Runs.RunKeeps | src/backend/src/modules/order/order.service.ts:281-324 | the invariant and the exactness of the keys hold after every run of clean, respectively lossless, steps |
| Runs.ShopIsNeverOversold | src/backend/src/modules/order/order.service.ts:380-391 | after every clean run from an empty shop: counters are exact folds over orders and tickets, no type is oversold, no user above the limit, stock keys at most and limit keys at least what the database says, each order has no tickets or all of them |
| Runs.ReplaysChangeNothing | src/backend/src/modules/payment/payment.service.ts:251-276 | a second webhook of any outcome, or a second issue job, changes nothing; the worker has nothing left to do after a success webhook |
| Runs.StrandedThenCancelled | src/backend/src/modules/order/order.service.ts:599-602 | cancelling the row that a gateway failure leaves behind makes the type look emptier than it is by the whole quantity |
| Runs.LooksLikeTwice | src/backend/src/modules/order/order.service.ts:581-600 | shops where that happens, of any size: twice as many tickets look available |
| Runs.PaidTicketsAreOfferedAgain | src/backend/src/modules/payment/services/payment-cron.service.ts:191-205 | shops reached by one createOrder where that happens: all their tickets are paid for and offered again |
| Runs.RefusedOrderTakesSecondType | src/backend/src/modules/order/order.service.ts:393-413 | shops reached by one createOrder where an order of a sold-out and an available type is refused and takes the available one out of stock for good |
| Lifecycle.CreateOrderKeeps | src/backend/src/modules/order/order.service.ts:341-603 | createOrder, with every list of items and every failure point, keeps the books exactly when it strands no order and the keys exactly when it leaks no reservation |
| Lifecycle.FailedCreateRestores | src/backend/src/modules/order/order.service.ts:394-430 | a createOrder that fails anywhere leaves every reader of stock, limit, reservation, counters, orders and tickets as before if and only if it neither strands an order nor leaks a reservation |
| Lifecycle.ManyItemsAreRefused | src/backend/src/modules/redis/redis.service.ts:261-292 | an order of two or more items is never placed, because they share one reservation key |
| Lifecycle.ClosingIsClosing | src/backend/src/modules/payment/payment.service.ts:310-384 | the unpaid transaction of the FAILED webhook and of the cron release closes a pending order with its guarded decrements never skipping; keys stay exact unless the reservation key was gone |
| Lifecycle.CancelAndExpireClose | src/backend/src/modules/order/order.service.ts:753-974 | cancelOrder and expireOrder of a pending order are that same closing |
| Lifecycle.LateReleaseIff | src/backend/src/modules/payment/services/payment-cron.service.ts:118-205 | a release after its order has moved on, whose transaction skips but whose script still runs, does no harm exactly when the reservation key is gone |
| Lifecycle.MarkedThenReleased | src/backend/src/modules/payment/services/payment-cron.service.ts:57-205 | whenever a pending order is marked paid while its key lives, a release that comes after leaves the stock key above what is left by the units of that paid order |
| Lifecycle.PayAndIssueIsBoth | src/backend/src/modules/payment/payment.service.ts:474-558 | the success webhook does in one transaction what the cron marking and then the worker do in two, and drops the key |
| Lifecycle.PayingKeeps | src/backend/src/modules/payment/payment.service.ts:419-558 | a paid order keeps every invariant |
| Lifecycle.IssuingKeeps | src/backend/src/worker/processors/ticket-issue.processor.ts:72-183 | issuing a paid order that has no tickets keeps every invariant |
| Lifecycle.MarkingKeeps | src/backend/src/modules/payment/services/payment-cron.service.ts:57-103 | marking an order paid without issuing keeps every invariant, and the order has no tickets then |
| Lifecycle.ResizeTypeKeeps | src/backend/src/modules/ticket-type/ticket-type.service.ts:239-304 | an update of price, totalQty, maxPerUser and sale status, with its check, reseed and automatic SOLD_OUT, keeps the invariant if and only if no user is above a maxPerUser it sets, and then the exactness of the keys |
| Lifecycle.CreateTypeKeeps | src/backend/src/modules/ticket-type/ticket-type.service.ts:137-202 | a new type and its first stock key keep every invariant |
| Lifecycle.FlushKeeps | src/backend/src/modules/redis/redis.service.ts:240-243 | losing all of Redis keeps the invariant: the next order seeds what it needs |
| Lifecycle.LapseKeeps | src/backend/src/modules/redis/scripts/reserve-ticket.lua:108-121 | a reservation key that reaches its lifetime keeps the invariant |
| Lifecycle.SeedingIsInvisible | src/backend/src/modules/order/order.service.ts:281-324 | seeding absent keys changes nothing that a reader of a key-or-its-seed sees |
| BooksSteps.GuardsPass | src/backend/src/modules/payment/payment.service.ts:334-360 | the guarded updates of the unpaid path always find enough reserved, so they equal the unguarded ones |
| BooksSteps.HoldingIsCovered | src/backend/src/modules/payment/payment.service.ts:334-360 | what an order holds is covered by its type row and by its user's counter row |
| BooksSteps.ClosedKeeps | src/backend/src/modules/order/order.service.ts:759-795 | closing a pending order keeps the database side of the invariant |
| BooksSteps.IssuedKeeps | src/backend/src/worker/processors/ticket-issue.processor.ts:84-183 | selling and issuing keeps the database side of the invariant |
| BooksSteps.PlacedKeeps | src/backend/src/modules/order/order.service.ts:432-526 | placing a granted order keeps the database side of the invariant |
| StoresSteps.AcceptedIsGranted | src/backend/src/modules/order/order.service.ts:496-513 | whatever Redis accepts, the database inventory guard and the user's limit have room for |
| StoresSteps.ReserveThenRelease | src/backend/src/modules/redis/scripts/release-reservation.lua:1-127 | releasing undoes reserving, key by key |
| StoresSteps.CloseOneGaps | src/backend/src/modules/order/order.service.ts:759-786 | closing an order moves the distance between each Redis key and the database by exactly what its lapsed key held, and by nothing if the key was there |
| StoresSteps.SeedAllKeeps | src/backend/src/modules/order/order.service.ts:281-324 | lazy seeding keeps every invariant and every exact key |
| Interleaving.EachUnitIsSomewhere | src/backend/src/modules/redis/scripts/reserve-ticket.lua:97-121 | under any interleaving of scripts each granted unit is in its key, returned, or dropped with its key, in exactly one of the three |
| Interleaving.UnitsReturnAtMostOnce | src/backend/src/modules/redis/scripts/release-reservation.lua:1-127 | however many releases run, no more of an order returns to stock than was granted to it |
| Interleaving.StockIsConserved | src/backend/src/modules/redis/redis.service.ts:248-320 | stock plus live reservations of a type changes only by the keys that payment or lifetime removes |
| Interleaving.StockNeverRises | src/backend/src/modules/redis/redis.service.ts:248-320 | so no trace of scripts raises stock plus live reservations |
| Interleaving.NothingReturnsWithoutKey | src/backend/src/modules/redis/scripts/release-reservation.lua:25-127 | once the key of an order is gone no release returns any of its units |
| Interleaving.CapSurvivesInterleaving | src/backend/src/modules/order/order.service.ts:499-526 | under any interleaving of statements and transactions of the order and payment code, with crashes anywhere, sold plus reserved never exceeds the total |
| OrderTally.StepTally | src/backend/src/modules/order/order.service.ts:753-795 | with every call cut into its scripts, statements and transactions: each step moves the distance between what orders hold and a type or user counter by exactly its excess, which is nothing when the order is free and its quantity when it is counted, taken or given up at the wrong time |
| OrderTally.StepIsWf | src/backend/src/modules/payment/payment.service.ts:474-555 | every such step keeps soldQty the exact number of tickets and sold plus reserved within the total |
| OrderRuns.RunTally | src/backend/src/modules/order/order.service.ts:725-974 | so over every run, with failures, crashes and anything happening to Redis, counters and orders differ by exactly the excess of its steps |
| OrderRuns.OversoldByExcess | src/backend/src/modules/order/order.service.ts:499-526 | over every run tickets sold stay within the total plus that excess |
| OrderDebt.CanOversellIff | src/backend/src/modules/order/order.service.ts:499-526 | from any state, calls that count, take and give up nothing at the wrong time any more can still oversell a type if and only if its orders hold more than its counter says |
| OrderDebt.RunCanOversellIff | src/backend/src/modules/order/order.service.ts:499-526 | so a run has opened the way to overselling a type exactly when its excess for that type is positive |
| OrderRuns.ExactIffNoClash | src/backend/src/modules/order/order.service.ts:753-795 | counters are exact after every step, up to calls under way, if and only if no step counts, takes or gives up an order that is not free for it |
| OrderHistory.ExactIffTakenOnce | src/backend/src/modules/payment/payment.service.ts:474-501 | the same condition read off what was done: counters are exact after every step, up to calls under way, a crashed one among them for ever, if and only if every order is counted while pending, taken by at most one call and only after it was counted, and not left half done |
| OrderHistory.TakenOnceIsNotOversold | src/backend/src/modules/payment/payment.service.ts:474-501 | and then no type is oversold and no counter negative |
| OrderHistory.SettledIsExact | src/backend/src/modules/order/order.service.ts:767-795 | when all calls have ended, exact counters are the plain folds over the orders |
| OrderHistory.FreeIsCovered | src/backend/src/modules/payment/payment.service.ts:342-359 | what is free to be taken is in the counters, so the guarded updates find it |
| OrderLocks.LockedShopIsNotOversold | src/backend/src/modules/order/order.service.ts:753-757 | one call at a time on each order, with different orders interleaving freely and no failure after the insert, is enough for all of it |
| OrderStock.LockedKeysAreSafe | src/backend/src/modules/redis/redis.service.ts:248-320 | with one call at a time on each order and keys lost only by their lifetime, stock and limit keys promise no more than the database has in every state, up to what calls under way owe |
| OrderStock.LockedKeysAreConservative | src/backend/src/modules/redis/redis.service.ts:248-320 | and outright when all calls have ended |
| OrderStock.SeedIsSafeIff | src/backend/src/modules/order/order.service.ts:281-302 | a lazy seed of an absent stock key is safe exactly when calls under way owe Redis nothing for that type |
| OrderStock.SeedBeforeCountPromisesTwice | src/backend/src/modules/order/order.service.ts:376-513 | a seed between the reserve script of an order and its inventory transaction leaves the key above what is left by the units of that order |
| OrderRace.CancelAgainstWebhookOversells | src/backend/src/modules/payment/payment.service.ts:419-501 | a run of the calls alone in which a cancel races a success webhook: Redis and the inventory guard let a second order through and a type with q tickets ends with twice q sold |
| OrderRace.RaceEnds | src/backend/src/modules/order/order.service.ts:753-795 | what that race leaves from any state with a pending order: units back in Redis, subtracted twice, sold once |
| OrderRace.CancelAlone | src/backend/src/modules/order/order.service.ts:725-795 | the statements of a cancel run alone are the service call, also when the counter row is missing |
| OrderRace.PayAlone | src/backend/src/modules/payment/payment.service.ts:419-558 | the statements of a success webhook run alone are the service call |
| OrderRace.CloseAlone | src/backend/src/modules/payment/payment.service.ts:310-371 | the statements of a FAILED webhook or a cron release run alone are the service call |
| OrderRace.IssueAlone | src/backend/src/worker/processors/ticket-issue.processor.ts:38-183 | the statements of an issue job run alone are the service call, skips included |
| OrderRace.PlaceAlone | src/backend/src/modules/order/order.service.ts:380-526 | the statements of a createOrder that Redis accepts and that has room place exactly that order, its amount and hold time apart |
| OrderRace.RunSendsScripts | src/backend/src/modules/redis/redis.service.ts:248-320 | what tasks do to Redis is a trace of the scripts |
| Tables.RedisService.ReserveTicket | src/backend/src/modules/redis/scripts/reserve-ticket.lua:25-136 | the script accepts exactly on stock, limit and an absent key, and then writes all three keys |
| Tables.RedisService.ReleaseReservation | src/backend/src/modules/redis/scripts/release-reservation.lua:25-127 | the script releases exactly a key with these very values, once |
| Tables.RedisService.ReleaseItems | src/backend/src/modules/order/order.service.ts:759-768 | releasing every item of an order returns at most its one key |
| Tables.PrismaService.ReserveInventory | src/backend/src/modules/order/order.service.ts:499-526 | the transaction commits exactly when every type has room for all asked of it, and then adds it to types and counters |
| Services.OrderService.CreateOrder | src/backend/src/modules/order/order.service.ts:341-603 | statement by statement it computes the transition that the lemmas are about, outcome included |
| Services.OrderService.CancelOrder | src/backend/src/modules/order/order.service.ts:725-795 | computes the cancel transition: its three refusals, the error of a missing counter row after the release, and the closing |
| Services.OrderService.ExpireOrder | src/backend/src/modules/order/order.service.ts:905-974 | computes the expiry transition: skipped unless pending and past its hold, counters before types, then the status |
| Services.PaymentService.HandleMockWebhook | src/backend/src/modules/payment/payment.service.ts:229-304 | computes the webhook transition for each outcome, refusal and ignored status |
| Services.PaymentService.HandlePaymentSuccess | src/backend/src/modules/payment/payment.service.ts:419-558 | planning all tickets first and then one transaction issues exactly the units of each item |
| Services.PaymentCronService.VerifyStuckPendingPayments | src/backend/src/modules/payment/services/payment-cron.service.ts:27-205 | the cron loop handles each order of its query in turn, also one that has moved since: its transaction skips it, its release runs |
| Services.TicketIssueProcessor.Process | src/backend/src/worker/processors/ticket-issue.processor.ts:38-188 | skips, failures and the nested issue loops compute the issuing transition |
| Services.TicketTypeService.Update | src/backend/src/modules/ticket-type/ticket-type.service.ts:239-304 | computes that transition field by field: a request without totalQty reseeds nothing |
| OrderCalls.AmountOfOne | src/backend/src/modules/order/order.service.ts:437-444 | one item costs the price of its type times its quantity |
| OrderCalls.AmountAdds | src/backend/src/modules/order/order.service.ts:437-444 | the amount of two lists together is the sum of their amounts |
| OrderCalls.InvalidIff | src/backend/src/modules/order/order.service.ts:356-367 | an order is invalid exactly when some item names an unknown type or one not on sale, and then nothing changes |
| OrderCalls.SingleOrderAnswers | src/backend/src/modules/order/order.service.ts:376-603 | an order of one type on sale is refused exactly when stock or limit, as their readers see them, have no room; otherwise only the failure of the insert, the inventory transaction or the gateway keeps it from being placed, each with its own answer |
| OrderCalls.WhatIsLeftCanBeOrdered | src/backend/src/modules/order/order.service.ts:281-324 | with exact keys, present or not, an order that no failure hits is placed if and only if the database has that many left and the user's limit allows them |
| OrderCalls.CreatedOrderIs | src/backend/src/modules/order/order.service.ts:437-526 | a placed order is stored for its user and hold time at price times quantity, with its reservation key and its units reserved; no other row and no ticket changes |
| OrderCalls.CreatedOrderTakes | src/backend/src/modules/redis/scripts/reserve-ticket.lua:97-121 | and readers of stock and limit see exactly its units taken, of its type and its user only |
| OrderCalls.CancelAnswers | src/backend/src/modules/order/order.service.ts:725-795 | each refusal of a cancel has its own reason and changes nothing; else the order is cancelled, its key gone, and its units free again in both stores |
| OrderCalls.ExpireAnswers | src/backend/src/modules/order/order.service.ts:905-974 | the same for expiry: it acts exactly on pending orders whose hold has passed |
| OrderCalls.WebhookActsIff | src/backend/src/modules/payment/payment.service.ts:232-276 | for every state and webhook: it acts if and only if it is signed, the order exists, the amount is the order's and payment is pending; each refusal has its own answer, and nothing else changes anything |
| OrderCalls.WebhookDoes | src/backend/src/modules/payment/payment.service.ts:278-304 | an acting SUCCESS leaves the order paid with one ticket of its user for each unit of each type, a FAILED one leaves it failed with its units free again, a TIMEOUT leaves everything |
| OrderCalls.TicketsCostTheirPrice | src/backend/src/modules/payment/payment.service.ts:247-249 | from placing to paying: exactly a signed webhook of price times quantity pays, and then the order has its quantity of tickets, else none |
| OrderCalls.IssueAnswers | src/backend/src/worker/processors/ticket-issue.processor.ts:38-183 | the worker acts exactly on paid orders with items and without a ticket, and then issues every unit; a missing order or one without items is a failure, the rest is skipped |
| OrderCalls.NewTypeSells | src/backend/src/modules/ticket-type/ticket-type.service.ts:177-193 | a new type has the quantity, limit and price it was given: its first order is placed exactly within both limits and at that price |
| OrderCalls.UpdateAnswers | src/backend/src/modules/ticket-type/ticket-type.service.ts:239-304 | an update is refused exactly for an unknown type or a total below what is sold and reserved; else it writes each field it is given, keeps every other, closes a type with nothing left, and reseeds exactly when the total was given |
| CronRuns.EveryListedOrderIsSettled | src/backend/src/modules/payment/services/payment-cron.service.ts:43-65 | over every list of different orders: each that was pending ends paid, failed or expired as its own verdict says, one that has moved keeps its row, and no other row and no ticket changes |
| CronRuns.CronRunKeeps | src/backend/src/modules/payment/services/payment-cron.service.ts:105-205 | such a run over orders that are pending or have no key left keeps the whole invariant, and exact keys where none had lapsed |
| CronRuns.CronRunReleases | src/backend/src/modules/payment/services/payment-cron.service.ts:191-205 | and drops exactly the reservation keys of those not verified as paid |
| CronRuns.QueriedOrderIsSettled | src/backend/src/modules/payment/services/payment-cron.service.ts:31-41 | the query finds exactly the pending orders past their hold |
| Sync.ReplayChangesNothing | src/backend/src/modules/checkin/checkin.service.ts:256-278 | the same batch again, at any later time: no ticket and no log row changes, and each record gets its first status and conflict flag back as a success |
| Sync.TotalsAddUp | src/backend/src/modules/checkin/checkin.service.ts:235-247 | success + failed + conflicts is always the number of records |
| Sync.TotalsOfReplay | src/backend/src/modules/checkin/checkin.service.ts:235-247 | on a replay former failures count as successes and conflicts stay conflicts |
| Sync.FreshBatchDoes | src/backend/src/modules/checkin/checkin.service.ts:250-449 | a fresh batch in closed form: exactly the ISSUED tickets with a valid record are checked in, and the totals are sizes of sets |
| Sync.FreshBatchLogs | src/backend/src/modules/checkin/checkin.service.ts:390-435 | one SUCCESS row per winning ticket and one REJECTED_CONFLICT row for each of its other valid records |
| Sync.BatchingIsInvisible | src/backend/src/modules/checkin/checkin.service.ts:226-248 | cutting a list of records into requests changes neither tickets, nor log, nor answers |
| Sync.OrderAndBatchingDoNotMatter | src/backend/src/modules/checkin/checkin.service.ts:226-248 | the same records in any order and any requests: the same tickets and the same totals |
| Sync.AnsweredIff | src/backend/prisma/migrations/20260602150004_init_schema/migration.sql:372 | a sync request is answered exactly when each record is logged, repeats an earlier one of its batch, or names an existing ticket |
| Sync.AnsweredIsLogged | src/backend/src/modules/checkin/checkin.service.ts:256-278 | whatever is answered is in the log with that status and flag |
| CheckinService.CheckinService.VerifyAndCheckin | src/backend/src/modules/checkin/checkin.service.ts:69-209 | statement by statement it computes the scan's transition, with the refusal of the log row of an unknown ticket |
| CheckinService.CheckinService.ProcessSyncRecord | src/backend/src/modules/checkin/checkin.service.ts:250-449 | computes the transition of one offline record: replay, unknown ticket, the checks in order, the conditional update, the log row |
| CheckinService.CheckinService.SyncCheckin | src/backend/src/modules/checkin/checkin.service.ts:226-248 | computes the batch transition, ending at an error; the three counters count the results and add up to the total |
| CheckinService.VenueTables.FindUnique | src/backend/src/modules/checkin/checkin.service.ts:257-264 | finds the row of a device and event if and only if there is one |
| CheckinInterleaving.EveryInterleavingIsSafe | src/backend/src/modules/checkin/checkin.service.ts:153-196 | under every interleaving of statements, with crashes: at most one SUCCESS row per ticket, only for a CHECKED_IN ticket; CHECKED_IN is never left; one row per device and event |
| CheckinInterleaving.LogTellsWhoIsIn | src/backend/src/modules/checkin/checkin.service.ts:256-278 | if a redelivery begins only after the deliveries before it have ended, and every request has finished, CHECKED_IN and one SUCCESS row are equivalent |
| CheckinInterleaving.LogTellsIff | src/backend/src/modules/checkin/checkin.service.ts:390-435 | and in any run that has finished they are if and only if the log refused no SUCCESS row in it |
| CheckinInterleaving.AccountedIff | src/backend/src/modules/checkin/checkin.service.ts:390-435 | the same at any moment, counting SUCCESS rows still owed |
| CheckinInterleaving.TwiceAtOnceLosesTheSuccess | src/backend/src/modules/checkin/checkin.service.ts:256-278 | a retry that overlaps its first delivery checks the ticket in and leaves REJECTED_CONFLICT as the only row |
| CheckinInterleaving.StepTally | src/backend/src/modules/checkin/checkin.service.ts:391-435 | SUCCESS rows and SUCCESS rows still owed move exactly with the ticket's status, less those the log refuses |
| CheckinInterleaving.AloneIsVerify | src/backend/src/modules/checkin/checkin.service.ts:69-209 | the statements of an online scan run alone are the service call |
| CheckinInterleaving.AloneIsSyncRecord | src/backend/src/modules/checkin/checkin.service.ts:250-449 | the statements of an offline record run alone are the service call |
| OfflineQueue.TwoRoundsConverge | src/frontend/checkin-pwa/src/hooks/useOfflineCheckin.ts:109-120 | two rounds that reach the server, the second answered: everything queued before is synced, whatever its status, a lost answer, later scans and other devices notwithstanding |
| OfflineQueue.ConvergesIff | src/frontend/checkin-pwa/src/hooks/useOfflineCheckin.ts:104-151 | two rounds empty the queue if and only if each unsynced record is logged or names an existing ticket |
| OfflineQueue.BlockedForever | src/frontend/checkin-pwa/src/hooks/useOfflineCheckin.ts:109-151 | one scan of an unknown ticket: however many rounds, nothing on the device is ever marked |
| OfflineQueue.LostAnswerKeepsTheGuard | src/frontend/checkin-pwa/src/hooks/useOfflineCheckin.ts:122-142 | a rejected ticket leaves the duplicate guard exactly when the first answer arrives |
| OfflineQueue.LostScanConflictsWithItself | src/frontend/checkin-pwa/src/hooks/useOfflineCheckin.ts:206-238 | an admitted online scan whose answer is lost is queued too, and its sync is rejected as a conflict |
| OfflineQueue.GuardAdmitsOnce | src/frontend/checkin-pwa/src/hooks/useOfflineCheckin.ts:236-280 | over any run of scans, rounds and server changes a ticket has been queued exactly once for each conflict that cleared it from the guard, and once more if the guard has it now |
| OfflineQueue.QueuedOncePerClearing | src/frontend/checkin-pwa/src/lib/idb.ts:182-235 | so a device queues a ticket at most once more than conflicts cleared it |
| OfflineCheckin.CheckinHook.TriggerSync | src/frontend/checkin-pwa/src/hooks/useOfflineCheckin.ts:104-151 | statement by statement it computes a sync round over some listing of what is unsynced, and nothing while a sync runs |
| OfflineCheckin.CheckinHook.OnScan | src/frontend/checkin-pwa/src/hooks/useOfflineCheckin.ts:178-306 | it computes the scan's transition on device and server |
| OfflineCheckin.CheckinHook.Find | src/frontend/checkin-pwa/src/hooks/useOfflineCheckin.ts:130-132 | finds the sent record of an event if there is one |
| OfflineCheckin.DeviceStores.GetUnsynced | src/frontend/checkin-pwa/src/lib/idb.ts:85-98 | lists every unsynced record once |
| OfflineCheckin.DeviceStores.MarkSyncedEvents | src/frontend/checkin-pwa/src/lib/idb.ts:104-132 | sets the flag of exactly the given events |
| Gates.LeastIndex | src/backend/src/modules/payment/payment.service.ts:641-650 | the first gate of the smallest load |
| GateService.TicketIssuer.FindLeastLoadedGate | src/backend/src/modules/payment/payment.service.ts:619-652 | the loop returns that gate, or none for a concert without gates |
| GateService.TicketIssuer.IssueEachTicket | src/backend/src/worker/processors/ticket-issue.processor.ts:115-180 | the inner loop asks for the gates anew and issues each ticket at the then least loaded one |
| GateService.TicketIssuer.IssueWholeOrder | src/backend/src/modules/payment/payment.service.ts:437-521 | the success webhook chooses one gate before its transaction and issues every ticket of the order there |
| GateBalance.OrderKeepsGap | src/backend/src/modules/payment/payment.service.ts:437-471 | a whole order of Q tickets on one gate leaves the gap at most max(gap, Q) |
| GateBalance.EachKeepsGap | src/backend/src/worker/processors/ticket-issue.processor.ts:119-153 | tickets issued one by one, whatever order each gate query returns, leave it at most max(gap, 1) |
| GateBalance.RunKeepsGap | src/backend/src/worker/processors/ticket-issue.processor.ts:119-153 | the bound over every mix of both paths |
| GateBalance.WorkerSpreadsEvenly | src/backend/src/worker/processors/ticket-issue.processor.ts:119-153 | from empty, n tickets put the floor or the ceiling of n/g at each of g gates |
| NamelessGates.AllGetNamedIff | src/backend/src/worker/processors/ticket-issue.processor.ts:119-175 | every ticket of every order gets a named gate if and only if there are gates and all of them have names |
| NamelessGates.FewGetNamed | src/backend/src/worker/processors/ticket-issue.processor.ts:119-153 | with a nameless gate, however many tickets are issued, no more get a named one than the others are short of passing its load |
| NamelessGates.TicketsGetChosen | src/backend/src/worker/processors/ticket-issue.processor.ts:155-178 | each ticket ends with its own token and the gate chosen for it, or none for the nameless one |
| NamelessGates.OrderGetsOneGate | src/backend/src/modules/payment/payment.service.ts:437-521 | the webhook's tickets all have their own tokens and the one gate it chose, and no other ticket changes |
| NamelessGates.RenamedToNothing | src/backend/src/modules/gate/gate.service.ts:80-104 | renaming a gate to the empty string goes through unless its concert has one already, and moves no ticket |
| GateMoves.RebalanceIsRoundRobin | src/backend/src/modules/gate/gate.service.ts:264-318 | the i-th ISSUED ticket ends at gate i mod g although unchanged tickets are skipped; nothing else changes |
| GateMoves.RebalanceIsEven | src/backend/src/modules/gate/gate.service.ts:264-318 | how many ISSUED tickets each gate has afterwards; two gates differ by at most one |
| GateMoves.TotalIsChanged | src/backend/src/modules/gate/gate.service.ts:380-383 | totalTicketsUpdated is the number of tickets whose gate changed |
| GateMoves.SecondRunIsIdle | src/backend/src/modules/gate/gate.service.ts:264-318 | a second run over the same list updates none |
| GateMoves.MoveMergesGates | src/backend/src/modules/gate/gate.service.ts:107-129 | a move empties the old gate and adds its load to the new one, in every concert |
| GateMoves.RenameBackIff | src/backend/src/modules/gate/gate.service.ts:107-129 | renaming back restores every ticket and signature if and only if no ticket had the new name |
| GateMoves.CreationOutcome | src/backend/src/modules/gate/gate.service.ts:53-78 | a gate is created exactly when its concert has none of that name |
| GateMoves.RenameOutcome | src/backend/src/modules/gate/gate.service.ts:80-129 | when a rename fails, that names stay unique, and that exactly the tickets of the old name go to the new one |
| GateMoves.RemovalOutcome | src/backend/src/modules/gate/gate.service.ts:152-211 | a removal is refused exactly for the last gate with tickets; else exactly its tickets go to the first of the other gates |
| GateService.GateService.Update | src/backend/src/modules/gate/gate.service.ts:80-150 | statement by statement the rename |
| GateService.GateService.Remove | src/backend/src/modules/gate/gate.service.ts:152-211 | statement by statement the removal |
| GateService.GateService.RebalanceConcert | src/backend/src/modules/gate/gate.service.ts:254-318 | the planning loop and the writing loop together are the round robin, with its total |
| VenueRuns.RunSigns | src/backend/src/worker/processors/ticket-issue.processor.ts:155-178 | every ticket's signature is the HMAC of its id, token hash and current gate after every run of both issue paths, rename, removal, rebalance and check-in |
| VenueRuns.PassesIff | src/backend/src/modules/checkin/checkin.service.ts:119-151 | in every reachable state a scan passes exactly when its token hashes right and the gate fits |
| VenueRuns.OwnTicketGetsInOnce | src/backend/src/modules/checkin/checkin.service.ts:153-209 | an ISSUED ticket with its own token at its own gate gets in the first time and is refused the second |
| VenueRuns.NamesStayUnique | src/backend/src/modules/gate/gate.service.ts:87-99 | no run gives two gates of a concert one name |
| VenueRuns.ScanAnswers | src/backend/src/modules/checkin/checkin.service.ts:95-209 | an online scan is answered and logged as GATE_MISMATCH exactly at another gate, as INVALID_TICKET exactly with a wrong signature or token at a gate that fits, and only then by the ticket's status; only an admission changes a ticket |
| VenueRuns.RecordAnswers | src/backend/src/modules/checkin/checkin.service.ts:280-449 | the same for an offline record of a new event, with REJECTED_CONFLICT for a ticket no longer ISSUED |
| VenueRuns.CheckinKeepsLoads | src/backend/src/modules/payment/payment.service.ts:629-637 | no scan and no sync moves a gate's load: tickets that are in still count there |
| VenueRuns.EndedTicketsLeave | src/backend/src/modules/payment/payment.service.ts:629-637 | a ticket that is cancelled or refunded no longer counts |
| TicketCodes.OwnCodeGetsInIff | src/frontend/checkin-pwa/src/hooks/useOfflineCheckin.ts:178-234 | after any run of the venue an ISSUED ticket's own code, read with any white space around it, gets its holder in if and only if the ticket's gate has a name that is more than white space and the device is set to it or to none; each other case has its answer |
| TicketCodes.OwnCodeGetsInLater | src/frontend/checkin-pwa/src/hooks/useOfflineCheckin.ts:236-306 | without network the same code is queued once, and the next answered round checks the ticket in and logs its device, gate and event |
| WaitingRoomRuns.WindowOfJoins | src/frontend/customer-web/lib/mock-waiting-room.ts:36-71 | in any five minutes at most the threshold of those let in at once have their join recorded |
| WaitingRoomRuns.WindowOfSessions | src/frontend/customer-web/lib/mock-waiting-room.ts:81-144 | the same by creation time, for a window shorter by what the clock may advance inside one join |
| WaitingRoomRuns.SafeWindowIff | src/frontend/customer-web/lib/mock-waiting-room.ts:66-144 | and no longer one: for every threshold a window is safe for all runs with that drift if and only if the two together are at most five minutes |
| WaitingRoomRuns.DriftLetsOneMoreIn | src/frontend/customer-web/lib/mock-waiting-room.ts:66-90 | for every threshold and drift there is a run that lets one session too many into any longer window |
| WaitingRoomRuns.PruneLosesNothing | src/frontend/customer-web/lib/mock-waiting-room.ts:36-42 | pruning never loses a timestamp that a later check counts |
| WaitingRoomRuns.CountedByPrune | src/frontend/customer-web/lib/mock-waiting-room.ts:55-64 | every recent enough join is counted by the check |
| WaitingRoomRuns.WaitersWaitThroughout | src/frontend/customer-web/lib/mock-waiting-room.ts:146-157 | over whole runs a session is never lost or changed but by its admission, and who must wait is in only after a poll of its own at or after the admission time |
| WaitingRoomRuns.PositionsAreAnOrder | src/frontend/customer-web/lib/mock-waiting-room.ts:159-173 | a smaller queue position means exactly being ahead; positions run from one to the number waiting |
| WaitingRoomRuns.NewcomerGets | src/frontend/customer-web/lib/mock-waiting-room.ts:55-144 | a newcomer is let in at once if and only if the room is not forced and recent joins and waiting sessions together are below the threshold; else they are to wait at least MIN_WAIT_MS and less than MAX_WAIT_MS from their creation |
| WaitingRoomRuns.NewcomerWaits | src/frontend/customer-web/lib/mock-waiting-room.ts:125-157 | over every run after a join that has to wait: not in before a poll of its own at least MIN_WAIT_MS after its creation, and in with a poll just before MAX_WAIT_MS at the latest |
| WaitingRoomRuns.ToldTimeIsTrue | src/frontend/customer-web/lib/mock-waiting-room.ts:176-195 | the seconds a waiting session is told are true: a poll that much later lets it in, one a whole second earlier does not |
| WaitingRoomRuns.EveryoneIsTold | src/frontend/customer-web/lib/mock-waiting-room.ts:159-195 | after every run each session is told either that it is in and until when, or its place, and the smaller place gets in first |
| WaitingRoom.WaitingRoomModule.JoinWaitingRoom | src/frontend/customer-web/lib/mock-waiting-room.ts:106-144 | statement by statement the join and its answer |
| WaitingRoom.WaitingRoomModule.PollWaitingRoom | src/frontend/customer-web/lib/mock-waiting-room.ts:146-157 | statement by statement the poll and its answer |
| WaitingRoom.WaitingRoomModule.GetQueuePosition | src/frontend/customer-web/lib/mock-waiting-room.ts:159-173 | the loop counts one more than those ahead |
| WaitingRoom.WaitingRoomModule.CountActiveWaitingSessions | src/frontend/customer-web/lib/mock-waiting-room.ts:44-52 | the loop counts the sessions that wait |
| Normalize.CanonicalForm | src/backend/src/modules/idempotency/idempotency.service.ts:28-46 | two bodies normalise alike exactly when they agree up to member order, null or undefined members and members named `__proto__`, at any depth, arrays keeping their places |
| Normalize.CanonicalWithoutProto | src/backend/src/modules/idempotency/idempotency.service.ts:28-46 | for bodies without such a member that is agreement in everything |
| Normalize.ProtoIsLost | src/backend/src/modules/idempotency/idempotency.service.ts:32-44 | and any value at that name is lost, so two bodies that do not agree normalise alike |
| Normalize.NormalIsIdempotent | src/backend/src/common/interceptors/idempotency.interceptor.ts:142-155 | normalising again changes nothing, and the normal form agrees with the body but for members named `__proto__` |
| Normalize.NormalMembersRead | src/backend/src/modules/idempotency/idempotency.service.ts:32-44 | the normal members are sorted, none is undefined, and each key but `__proto__` reads as the normal form of what it was |
| QrPayload.StrictRoundTrip | src/backend/src/modules/ticket/utils/qr-payload.util.ts:26-44 | strict parse of build gives the ticket back exactly when all fields are non-empty and without colons |
| QrPayload.StrictParseBuildsBack | src/backend/src/modules/ticket/utils/qr-payload.util.ts:36-44 | build of a strict parse is the text |
| QrPayload.ScannedRoundTrip | src/frontend/checkin-pwa/src/hooks/useOfflineCheckin.ts:56-63 | the scanner gives the payload back exactly when id and token are non-empty and without colons, the gate is non-empty, and no white space is at either end |
| QrPayload.ScannedParseBuildsBack | src/frontend/checkin-pwa/src/hooks/useOfflineCheckin.ts:56-63 | build of the scanner's parse is the trimmed text |
| QrPayload.TrimCutsSpace | src/frontend/checkin-pwa/src/hooks/useOfflineCheckin.ts:57 | trimming takes white space from the two ends of a text and nothing else |
| QrPayload.SpaceAroundIsIgnored | src/frontend/checkin-pwa/src/hooks/useOfflineCheckin.ts:57 | white space around any scanned text makes no difference |
| QrPayload.PaddedRoundTrip | src/frontend/checkin-pwa/src/hooks/useOfflineCheckin.ts:56-63 | the scanner gives the same payloads back from their code with any white space around it, and no others |
| QrPayload.CodeIsReadIff | src/frontend/checkin-pwa/src/hooks/useOfflineCheckin.ts:56-63 | the code of a plain id and token is read exactly when its gate is more than white space, and both come through |
| QrPayload.ParsersAgree | src/frontend/checkin-pwa/src/hooks/useOfflineCheckin.ts:56-63 | where the strict parser accepts the trimmed text the scanner reads the same |
| QrPayload.ScannerAcceptsMore | src/frontend/checkin-pwa/src/hooks/useOfflineCheckin.ts:56-63 | the scanner accepts more exactly where the gate has a colon |
| QrPayload.SplitOfJoin | src/backend/src/modules/ticket/utils/qr-payload.util.ts:37-38 | splitting undoes joining for parts without a colon |

## Left out

- Interleaving.CapSurvivesInterleaving: covers the statements of the order and payment code, not the update of a ticket type, whose check and write are separate statements; the order tasks leave that update out as well.
- Runs.ShopIsNeverOversold: is about service calls one after another in which no order is stranded; OrderRuns.OversoldByExcess accounts for every other run.
- OrderTally.StepTally: orders have one item there, which is all that can be placed, and order rows carry no amount or expiry: whether a call's signature, amount and clock let it through is a choice of the run.
- Normalize.CanonicalForm: compares normal forms as values with sorted members; JavaScript prints integer-like keys first and fails to hash an absent body. Characters are compared as Unicode scalars, not as UTF-16 units.
- WaitingRoomRuns.WindowOfJoins: takes the threshold as given; reading it from the environment is left out.
- Payment transactions, late-payment records, notification mail, seatmap broadcasts and cache invalidation: rows and messages that no modelled step reads.
- A ticket's life is split in two models: the ledger counts tickets by type and owner, the venue has their gate, token and status.
- Redis numbers are unbounded integers here, not signed 64-bit ones; reservation times to live are steps that may come at any time.
- Jobs that never run again after a crash: a job is a step that may come any number of times, or not at all.
- Admin overrides of soldQty and reservedQty, a maxPerUser lowered below what a user has, changes of names and sale dates, removal of types and concerts: they change the ledger by decree.
- Sale windows and concert status checks of createOrder: folded into one flag per ticket type.
- The record machines of the two idempotency layers: for serial calls they are a look-up table, and for concurrent ones they promise nothing.
- Summing a user's order usage for display, gate and concert lists, ticket e-mails after a rebalance: reads without effect on the state.
- Clearing synced records, logging out, IndexedDB upgrades and failures of the device's own storage.
- Reason texts, staff ids, times and concert ids in log rows; the uniqueness of token hashes.
- Authentication, rate limits, the circuit breaker, controllers and user interfaces.
