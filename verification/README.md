# A verified model of the bookshop's stock, money and session logic

This project models the parts of the shop whose correctness depends on many
steps agreeing with each other, and proves that they do:

* the **inventory service**: product counters, the append-only movement ledger,
  dated batches sold oldest first, and what each order took from which batch;
* **exact money**: the largest-remainder split of a discount over order lines;
* **sessions**: rotating refresh tokens with reuse detection, the login
  lockout, the ten-second liveness cache of the access-token check, and the
  browser client that shares one silent refresh between all its requests;
* the **monotone cubic curve** of the finance desk, the **gapless document
  counter**, the **CSV** text offered for download and the **description**
  parser and printer.

Verify everything with `dafny verify dfyconfig.toml`.

## How it is built

Code that changes rows or fields is a class whose methods do the same updates
in the same order (`InventoryService`, `AuthService`, `JwtStrategy`,
`DocumentCounterService`, `ApiClient`); loops over arrays stay loops over arrays
(`Money.Allocate`, `Smooth.LimitTangents`). Each such method is proved equal to
a function of the old state, and the properties are proved about runs of those
functions: any number of calls, in any order, with any arguments.

An error a method throws is a value (`Err`, or a `Some` of an error), and the
caller's transaction is rolled back: the tables are as before the call. The
CHECK constraints of the database are part of the model, because some calls run
into them.

| file | what it holds |
|---|---|
| `Prelude`, `Reals`, `Text` | options and results; products and quotients of reals; decimal numbers and padding |
| `Money`, `Allocation` | the split, and why it adds up, is fair and is nearest to the exact shares |
| `Batches`, `BatchLaws`, `FifoQueue`, `OldestFirst` | batches and consumptions; the table invariant; the queue of single copies they amount to; which copies leave first, by date |
| `Shelf`, `ShelfLaws`, `Writes`, `Answers` | one product and every change to it; invariant, conservation, ledger, exact success conditions; what each call writes, answers and leaves alone |
| `Holds`, `Returns`, `CostLaws` | reservations by holder; the return round trip; the cost price and the stamped cost |
| `Lines`, `Calls`, `OrderReturns`, `OrderHolds`, `Locks` | merged lines; whole calls over many products; a whole order returned; reservations through the service; row locks |
| `InventoryService` | the service, row by row |
| `Auth`, `AuthService`, `AuthLaws` | accounts and sessions, the service, rotation and lockout |
| `JwtStrategy`, `Liveness` | the liveness cache; exactly which tokens it accepts |
| `Client`, `ClientCalls`, `ClientLaws` | the browser's event loop between the server and everybody else; how each call goes on; when a refresh looks like theft |
| `Smooth`, `SmoothTangents`, `SmoothLaws` | the curve: tangents, limiter, path; the tangents it is drawn with; no overshoot |
| `Counter`, `Csv`, `Desc`, `DescLines` | document numbers; CSV text; descriptions, whole and line by line |
| `Witnesses` | one small input for each promise that does not hold |

## What the proofs brought to light

* **Backorder stops at the shelf.** The guard of a sale lets a backorder product
  go below zero, the constraint `products_stock_nonneg` does not: such a sale
  fails with a constraint error, whatever the flag says
  (`FulfillSucceedsIff`, `BackorderStopsAtEmptyShelf`). Likewise a product without stock tracking and without
  backorder cannot be reserved beyond the shelf (`ReserveSucceedsIff`). These
  two, and a negative purchase cost, are the only ways to hit a constraint
  (`ConstraintHitIff`).
* **The reserved column of the ledger can drift.** `backend/docs/database.md`
  says the ledger's reserved column adds up to the counter. A release, or a sale
  that was never reserved, writes its full quantity while the counter is clamped
  at zero: the two move together if and only if no more is given back than is
  reserved (`ReservedLedgerFollowsIff`, `ReleaseOfNothingDrifts`). The on-hand
  column always adds up.
* **A split adds up for every non-negative total, not for every total.** With
  a negative total nothing is left to hand out after truncation towards zero,
  and an empty list of weights has no part to carry the total; the exact
  condition is `AllocationAddsUp`, an input `NegativeTotalIsLost`.
* **A CSV download loses a row that has no cells.** It decodes to a row with one
  empty cell; the text is faithful if and only if there is a row and none is
  empty (`PrintedTableDecodes`, `EmptyRowReadsBackAsEmptyCell`).
* **Signing out everywhere can sign you out again.** Sessions ended by "log out
  everywhere", a password reset or a password change elsewhere look to `refresh`
  like rotated ones. The next silent refresh of any browser still holding such a
  cookie is taken for theft and ends every session of the user, those started
  since included (`DeadCookieLooksStolen`, `LogoutEverywhereBackfires`). So is
  the refresh after one whose answer was lost (`LostAnswerKillsCookie`).

## Model

| member | source | states |
|---|---|---|
| Money.Round2 | backend/src/common/utils/money.ts:17-19 | the nearest whole paisa, a half away from zero |
| Money.SortedPositionIsRank | backend/src/common/utils/money.ts:56-58 | the stable descending sort by remainder puts at place k the index that exactly k others come before, by remainder and then from the left |
| Money.Allocate | backend/src/common/utils/money.ts:48-65 | the loop over the array of cut shares computes the largest-remainder split: every index ranked below the rest gets one paisa more, no other does; for any total and weights |
| AllocationLaws.AllocationAddsUp | backend/src/common/utils/money.ts:43-65 | the parts add up to the rounded total if and only if there is a part to carry it and the total is not negative, the weights are all zero, or no share had to be cut |
| AllocationLaws.PartIsFloorOrCeiling | backend/src/common/utils/money.ts:53-64 | each part is its exact share rounded down or up |
| AllocationLaws.ZeroWeightGetsNothing | backend/src/common/utils/money.ts:48-65 | a line of weight zero gets nothing while some line has weight |
| AllocationLaws.NoPartAboveItsWeight | backend/src/common/utils/money.ts:43-65 | with whole-paisa weights and a total at most their sum, no part exceeds its weight |
| AllocationLaws.PercentCouponKeepsLinesNonNegative | backend/src/common/utils/money.ts:25-28 | splitting a percentage of the lines' sum, up to 100 %, adds up to that percentage and never discounts a line below zero |
| AllocationLaws.LargerWeightNeverSmallerPart | backend/src/common/utils/money.ts:56-63 | a strictly larger weight never receives a smaller part |
| AllocationLaws.EqualWeightsLeftFirst | backend/src/common/utils/money.ts:56-63 | of two equal weights the one further left never receives less |
| AllocationLaws.PartNearProportion | backend/src/common/utils/money.ts:48-65 | every part is less than a paisa off its weight's proportion of the total |
| AllocationLaws.NoWeightPaysFirst | backend/src/common/utils/money.ts:49-52 | with all weights zero the first line carries the whole total and the others nothing |
| AllocationLaws.PercentIsNearest | backend/src/common/utils/money.ts:25-28 | a percentage of an amount is within half a paisa of the exact value |
| AllocationLaws.AllocationIsOptimal | backend/src/common/utils/money.ts:43-65 | among all whole-paisa splits with the same sum, this one has the least summed absolute deviation from the exact shares |
| BatchLaws.TakeAccountsPerBatch | backend/src/modules/inventory/inventory.service.ts:175-192 | batch by batch, a sale takes away exactly what its list of takes says |
| BatchLaws.TakeKeepsSound | backend/src/modules/inventory/inventory.service.ts:175-192 | a sale keeps, for each batch, copies left plus copies out with orders within what arrived |
| BatchLaws.GiveBackPerBatch | backend/src/modules/inventory/inventory.service.ts:203-218 | a return moves copies, batch by batch, from out with the order to left on the shelf, and changes no other sum |
| BatchLaws.GiveBackOutstanding | backend/src/modules/inventory/inventory.service.ts:203-218 | a return finds a batch for exactly what the order still has out, up to the quantity returned |
| BatchLaws.GiveBackKeepsSound | backend/src/modules/inventory/inventory.service.ts:203-218 | a return keeps the batch table sound |
| BatchLaws.ReturnWithinArrival | backend/src/modules/inventory/inventory.service.ts:211-215 | on any table, sound or not, a return never fills a batch above what arrived with it |
| BatchLaws.ReturnNeverClamped | backend/src/modules/inventory/inventory.service.ts:211-215 | on a sound table the return equals one without the `LEAST` clamp |
| FifoQueue.ConsumeIsQueue | backend/src/modules/inventory/inventory.service.ts:174-200 | a sale removes exactly the first copies of the queue the batches form, in selling order, lists those copies with their costs, and leaves the rest of the queue |
| FifoQueue.ConsumeTwiceSameCost | backend/src/modules/inventory/inventory.service.ts:174-200 | selling a and then b copies leaves the same batches, takes the same copies and costs the same as selling a + b at once |
| OldestFirst.BatchesStandByDate | backend/src/modules/inventory/inventory.service.ts:177-180 | after any run the batches stand by date of arrival, then of creation, then by id |
| OldestFirst.OldestCopiesLeaveFirst | backend/src/modules/inventory/inventory.service.ts:174-192 | after any run, if a sale or a count downwards takes a copy from a batch, every batch received before it, or at one time and created before, or both alike with a smaller id, has none left |
| OldestFirst.OrdersTakeOldestCopies | backend/src/modules/inventory/inventory.service.ts:63-82 | the same of a whole order handed over by the service, product by product, after any run of its calls |
| ShelfLaws.StepEffect | backend/src/modules/inventory/inventory.service.ts:29-170 | what any successful call does to the on-hand and reserved counters, to the number of copies the batches know and to the deltas and balance of the one ledger row it adds; sold count, consumptions, single batches and cost price have rows of their own |
| ShelfLaws.RunKeepsValid | backend/src/modules/inventory/inventory.service.ts:29-226 | over every run: constraints met, no batch below zero, left plus out at most arrived, batches in selling order |
| ShelfLaws.BatchNeverOverfull | backend/src/modules/inventory/inventory.service.ts:175-226 | in every reachable state a batch holds between nothing and what arrived |
| ShelfLaws.RunConserves | backend/src/modules/inventory/inventory.service.ts:175-226 | on-hand minus the copies in batches, plus the shortfall of all sales so far, is constant over any run |
| ShelfLaws.CleanShelfStaysClean | backend/src/modules/inventory/inventory.service.ts:193-197 | a shelf whose batches account for every copy stays so over any run, and no sale ever has a shortfall |
| ShelfLaws.ReserveSucceedsIff | backend/src/modules/inventory/inventory.service.ts:29-48 | a reservation stands if and only if the product is not deleted and may be backordered or has the copies free; the constraint is hit exactly for an untracked product without them |
| ShelfLaws.FulfillSucceedsIff | backend/src/modules/inventory/inventory.service.ts:63-74 | copies leave if and only if the shelf holds them; for backorder products beyond the shelf the constraint is hit |
| ShelfLaws.ConstraintHitIff | backend/prisma/migrations/20260929072842_constraints/migration.sql:24-25 | the exact calls that run into a database constraint |
| ShelfLaws.LedgerAddsUp | backend/src/modules/inventory/inventory.service.ts:272-288 | the ledger is append-only, its on-hand column adds up to the counter, and every balance is the running sum |
| ShelfLaws.ReservedLedgerFollowsIff | backend/docs/database.md:27 | the reserved column follows the counter over a call if and only if the call gives back no more than is reserved |
| Writes.LedgerIsHistory | backend/src/modules/inventory/inventory.service.ts:272-288 | after any run the ledger is the one before, followed by exactly one row for each call that succeeded and changed something, in order, with its kind, order, deltas, cost and running balance |
| Writes.SoldFollowsIff | backend/src/modules/inventory/inventory.service.ts:66-92 | the sold count becomes itself plus sales less returns, or zero if that is negative; it follows exactly if and only if no more is returned than was counted as sold |
| Writes.DeliveryOpensOneBatch | backend/src/modules/inventory/inventory.service.ts:113-141 | a delivery adds one batch at its own cost, or the cost price, in its place in selling order, and touches no other batch |
| Writes.CountUpOpensOneBatch | backend/src/modules/inventory/inventory.service.ts:158-165 | a count upwards adds one batch of the copies found, dated now and at the cost price |
| Writes.ReturnBeyondKnownOpensOneBatch | backend/src/modules/inventory/inventory.service.ts:203-226 | a return refills as many copies as the order has out; exactly the rest, if any, becomes one batch dated now at the cost price |
| Writes.DeliveryAverages | backend/src/modules/inventory/inventory.service.ts:128-139 | after a delivery at a cost, the cost price is the rounded average of the costed copies before and the copies delivered |
| Answers.ReserveAnswers | backend/src/modules/inventory/inventory.service.ts:29-48 | which of its answers a reservation gives, for every product and quantity |
| Answers.SaleAnswers | backend/src/modules/inventory/inventory.service.ts:63-74 | which of its answers a sale gives, for every product and quantity |
| Answers.CountAnswers | backend/src/modules/inventory/inventory.service.ts:144-170 | a count below zero is refused, one that changes nothing does nothing, one below what is reserved is refused, any other sets the figure |
| Answers.ConsumptionsCarryTheirCost | backend/src/modules/inventory/inventory.service.ts:181-191 | each consumption a sale adds is of its order, all of it out, and carries the cost of the batch it names |
| Answers.OnlyItsSaleStamps | backend/src/modules/inventory/inventory.service.ts:228-240 | only a sale to an order stamps a cost, and only on that order |
| Answers.NewestComesBackFirst | backend/src/modules/inventory/inventory.service.ts:203-218 | a return touches a consumption only once every newer one of the order has come back whole |
| Answers.CostSumsAreOverCopies | backend/src/modules/inventory/inventory.service.ts:242-254 | the two sums behind the cost price are, copy by copy, how many on the shelf have a known cost and what those cost |
| Answers.FirstFailureAnswers | backend/src/modules/inventory/inventory.service.ts:29-99 | a call that fails gives the answer of the first of its merged lines that cannot be carried out alone |
| Answers.InvalidQuantityAnswers | backend/src/modules/inventory/inventory.service.ts:258-265 | a call is refused for its quantities if and only if one of them is not positive |
| Holds.TotalHeldUpdate | backend/src/modules/inventory/inventory.service.ts:29-82 | the sum of all holds moves with the hold of one holder |
| Holds.HoldSafety | backend/src/modules/inventory/inventory.service.ts:29-82 | if callers give back only what they hold: reserved is the sum of the holds and within on-hand in every state, no clamp bites, no held sale fails |
| OrderHolds.ServiceHoldSafety | backend/src/modules/inventory/inventory.service.ts:29-82 | over any run of service calls in which orders release and hand over only what they hold, for every product without backorder the reserved counter is the sum of the open holds and the shelf covers it |
| OrderHolds.HeldOrderIsHandedOver | backend/src/modules/inventory/inventory.service.ts:63-82 | an order that holds every product it asks for is handed over whole, never refused |
| Returns.SaleRecords | backend/src/modules/inventory/inventory.service.ts:186-191 | a sale without shortfall writes consumption rows that say, batch by batch, what each batch lost |
| Returns.RunSparesOrder | backend/src/modules/inventory/inventory.service.ts:203-218 | no run of other orders' calls, counts and deliveries changes what an order has out of any batch |
| Returns.ReturnRestoresBatches | backend/src/modules/inventory/inventory.service.ts:63-99 | sale, any interleaving of others' calls, full return: every batch regains exactly what the sale took from it and no batch is opened |
| Returns.ReturnTwiceSameTables | backend/src/modules/inventory/inventory.service.ts:203-218 | returning a and then b copies of an order leaves the batches, the consumptions and the leftover of returning a + b at once, the clamp included |
| Returns.ReturnInParts | backend/src/modules/inventory/inventory.service.ts:85-99 | two returns within what the order has out leave the batches, consumptions and counters of one return of the whole |
| Returns.ImmediateReturnUndoesSale | backend/src/modules/inventory/inventory.service.ts:63-99 | a sale returned at once restores batches, on-hand count and sold count, and the cost price if and only if it was the average of the shelf before |
| CostLaws.HalfUpIsRound2 | backend/src/modules/inventory/inventory.service.ts:243-247 | the rounding of the cost queries is the money rounding of the exact quotient |
| CostLaws.RunCostCurrentIff | backend/src/modules/inventory/inventory.service.ts:242-254 | after any run, from any state, the cost price is the average of the costed copies, or unchanged without any, if and only if it was so before or a call of the run moved copies |
| CostLaws.PriceStaysWithoutCosts | backend/src/modules/inventory/inventory.service.ts:242-254 | a call that leaves no copy of known cost on the shelf leaves the cost price as it was |
| CostLaws.CostPriceIsAverage | backend/src/modules/inventory/inventory.service.ts:242-254 | after any run that moved copies, or began with a current cost price, while a costed copy is on the shelf the cost price is the rounded weighted average, between the cheapest and the dearest batch |
| CostLaws.UncostedArrivalKeepsCostPrice | backend/src/modules/inventory/inventory.service.ts:113-170 | a batch entered without a cost and a count upwards leave the cost price as it is, despite rounding |
| CostLaws.StampedCostIsFifoCost | backend/src/modules/inventory/inventory.service.ts:228-240 | the unit cost stamped on an order, times its units, is off the true cost of the copies that left the queue by at most half a paisa a unit |
| CostLaws.ShortfallStamp | backend/src/modules/inventory/inventory.service.ts:193-197 | copies no batch knows are costed at the cost price of before the sale; a copy of unknown cost leaves the stamps alone |
| Lines.MergeIsMerge | backend/src/modules/inventory/inventory.service.ts:258-265 | merged lines have strictly increasing products and the same quantity per product |
| Lines.MergeIgnoresOrder | backend/src/modules/inventory/inventory.service.ts:258-265 | any permutation of the lines merges to the same list, and no other list has its properties |
| Calls.RunPerProduct | backend/src/infrastructure/prisma/prisma.service.ts:33-43 | a run of service calls over many products, failed ones rolled back whole, is for each product a run of its own events |
| Calls.ServiceKeepsShelvesClean | backend/src/modules/inventory/inventory.service.ts:29-226 | after any run of service calls a clean shelf is still accounted for copy by copy |
| Calls.CallStandsIff | backend/src/modules/inventory/inventory.service.ts:29-99 | a call over many lines goes through if and only if, product by product, the whole of its lines would on its own |
| Calls.ReservationStandsIff | backend/src/modules/inventory/inventory.service.ts:29-48 | an order is reserved if and only if, product by product, the sum of its lines can be held |
| Calls.FulfilmentStandsIff | backend/src/modules/inventory/inventory.service.ts:63-82 | an order is handed over if and only if, product by product, the shelf holds the sum of its lines |
| Calls.OrderOfLinesIsIrrelevant | backend/src/modules/inventory/inventory.service.ts:258-265 | carts that differ only in the order of lines have the same outcome |
| OrderReturns.OrderReturnRestoresBatches | backend/src/modules/inventory/inventory.service.ts:85-99 | a whole order returned after any service calls that spare it is accepted, and each of its products regains its batches |
| Locks.CallLocksAscending | backend/src/modules/inventory/inventory.service.ts:17-23 | a stock call locks product rows in strictly ascending order |
| Locks.StaysExclusive | backend/src/modules/inventory/inventory.service.ts:17-23 | in every reachable state a row has one holder at most |
| Locks.EndsFreeRows | backend/src/modules/inventory/inventory.service.ts:29-48 | a rollback is possible at any moment and, like a commit, frees exactly the rows of its transaction |
| Locks.NoCircularWait | backend/src/modules/inventory/inventory.service.ts:17-23 | concurrent transactions of one stock call each, any of them rolled back at any moment, never wait for each other in a circle |
| Locks.SomebodyCanMove | backend/src/modules/inventory/inventory.service.ts:17-23 | while a transaction is open, some transaction can lock its next row or finish, without anybody being rolled back |
| InventoryService.MergeLines | backend/src/modules/inventory/inventory.service.ts:258-265 | the loop refuses a non-positive quantity and otherwise computes the merge |
| InventoryService.InventoryService.ConsumeLots | backend/src/modules/inventory/inventory.service.ts:175-200 | row by row, the loop over batches has the effect and the list of takes of the FIFO sale, cost price refreshed |
| InventoryService.InventoryService.GiveBackRows | backend/src/modules/inventory/inventory.service.ts:205-218 | row by row from the newest, the loop over consumptions has the effect of the return |
| InventoryService.InventoryService.UnconsumeLots | backend/src/modules/inventory/inventory.service.ts:203-226 | a return refills batches and opens one for the rest, cost price refreshed |
| InventoryService.InventoryService.Reserve | backend/src/modules/inventory/inventory.service.ts:29-48 | all lines are reserved and logged, or the error of the first that fails is thrown and nothing changed |
| InventoryService.InventoryService.Release | backend/src/modules/inventory/inventory.service.ts:51-60 | holds are given back and logged; missing products are skipped |
| InventoryService.InventoryService.Fulfill | backend/src/modules/inventory/inventory.service.ts:63-82 | all lines leave the shelf, the batches and the holds and are stamped with their cost, and the products that end at or below their threshold are returned; or nothing changed |
| InventoryService.LowHitsExactly | backend/src/modules/inventory/inventory.service.ts:76-81 | the hits reported are exactly the lines' products that end at or below their threshold, five unless another is set |
| InventoryService.LowHitsAscend | backend/src/modules/inventory/inventory.service.ts:65-81 | the hits come in the order of the merged lines, each product once |
| InventoryService.InventoryService.Restock | backend/src/modules/inventory/inventory.service.ts:85-99 | all lines come back to shelf and batches; missing products are skipped |
| InventoryService.InventoryService.AddBatch | backend/src/modules/inventory/inventory.service.ts:113-141 | a batch arrives at its own cost or the cost price, or the call throws and nothing changed |
| InventoryService.InventoryService.Receive | backend/src/modules/inventory/inventory.service.ts:105-107 | a purchase is a batch at the purchase's cost |
| InventoryService.InventoryService.SetOnHand | backend/src/modules/inventory/inventory.service.ts:144-170 | a count sets the figure under the movement kind its caller names, through a new batch upwards or a FIFO sale downwards, or throws and nothing changed |
| AuthService.AuthService.Register | backend/src/modules/auth/auth.service.ts:57-78 | a new account with a session, or a refusal |
| AuthService.AuthService.Login | backend/src/modules/auth/auth.service.ts:81-109 | the lockout counter and the new session, in every branch |
| AuthService.AuthService.Refresh | backend/src/modules/auth/auth.service.ts:113-128 | rotation, reuse and expiry, in every branch |
| AuthService.AuthService.Logout | backend/src/modules/auth/auth.service.ts:130-135 | ends the session of the token and the session of the access token |
| AuthService.AuthService.LogoutEverywhere | backend/src/modules/auth/auth.service.ts:137-139 | ends every session of the user |
| AuthService.AuthService.ResetPassword | backend/src/modules/auth/auth.service.ts:170-189 | new password, clean counter, every session ended, or a refusal |
| AuthService.AuthService.ChangePassword | backend/src/modules/auth/auth.service.ts:191-199 | new password, every session but the caller's ended, or a refusal |
| AuthLaws.StepOnlyRevokes | backend/src/modules/auth/auth.service.ts:57-199 | every call only appends sessions and writes revocation times where there was none |
| AuthLaws.RevokedAtIsWriteOnce | backend/src/modules/auth/auth.service.ts:113-139 | over any run a revocation time, once written, stays, and user, expiry and chain never change |
| AuthLaws.RunKeepsChains | backend/src/modules/auth/auth.service.ts:111-128 | over any run each rotation chain belongs to one user and has at most one unrevoked session, its newest |
| AuthLaws.OneLiveSessionPerLogin | backend/src/modules/auth/auth.service.ts:111-128 | from empty tables, two unrevoked sessions never descend from the same login |
| AuthLaws.RevokedTokenEndsSessions | backend/src/modules/auth/auth.service.ts:117-123 | a revoked token gets nothing, ends every session of its user and touches nobody else's |
| AuthLaws.RotatedTokenNeverWorksAgain | backend/src/modules/auth/auth.service.ts:111-128 | a token exchanged once and presented again, after any run, gets nothing and leaves its user without a live session |
| AuthLaws.PasswordIsTheLastSet | backend/src/modules/auth/auth.service.ts:170-199 | over any run an account's password is the one set by the last accepted registration, reset or change |
| AuthLaws.LoginSucceedsIff | backend/src/modules/auth/auth.service.ts:81-109 | after any run a login gets tokens if and only if the account may log in, is not locked and the password is the last one set; its session is new, live and of its own chain |
| AuthLaws.LoginRefusals | backend/src/modules/auth/auth.service.ts:82-102 | which refusal a login gets, the reasons in their order, and that only a wrong password leaves a trace |
| AuthLaws.RefreshRefusals | backend/src/modules/auth/auth.service.ts:114-124 | which refusal a refresh gets, the reasons in their order |
| AuthLaws.RefusedCallsChangeNothing | backend/src/modules/auth/auth.service.ts:57-199 | a refused call leaves every table alone, but for counting a wrong password and for ending the sessions of a reused token |
| AuthLaws.AccessFollows | backend/src/modules/auth/auth.service.ts:57-78 | a new account is active, not deleted, with a clean counter and the password it chose; blocking and unblocking alone change whether an account may log in |
| AuthLaws.NewAccountMayLogIn | backend/src/modules/auth/auth.service.ts:57-109 | a new account gets a session of its own with the full lifetime, its password opens it at once and no other does |
| AuthLaws.CounterFollows | backend/src/modules/auth/auth.service.ts:93-102 | over any run from a clean counter, the counter is the number of wrong passwords checked since the last successful login, accepted reset or unblocking, and the account is locked exactly from the fifth of them on, until 900 000 ms after the last |
| AuthLaws.LockoutBound | backend/src/modules/auth/auth.service.ts:81-109 | over any run, the wrong passwords checked since the counter was last wiped are at most 5 + (elapsed since the first of them / 15 min), for every timing |
| JwtStrategy.JwtStrategy.Validate | backend/src/modules/auth/jwt.strategy.ts:31-49 | the answer and the new cache, on a hit, on a miss and when the cache is full |
| Liveness.AcceptedIff | backend/src/modules/auth/jwt.strategy.ts:41-49 | after any run from an empty cache, a token is accepted if and only if its session was live at its last look-up, when that is less than 10 000 ms ago, and otherwise if and only if it is live now |
| Liveness.WorkingSessionIsAccepted | backend/src/modules/auth/jwt.strategy.ts:41-49 | a session that works now and worked at every check of it in the last 10 000 ms is accepted |
| JwtStrategy.AcceptedTokenWasLive | backend/src/modules/auth/jwt.strategy.ts:36-49 | an accepted token's session was live in the tables at a moment of the run less than 10 000 ms before |
| JwtStrategy.RevocationIsFinal | backend/src/modules/auth/jwt.strategy.ts:36-49 | no check 10 000 ms or more after a revocation accepts the session, whichever call revoked it |
| Liveness.ExpiryIsFinal | backend/src/modules/auth/jwt.strategy.ts:44-45 | no check 10 000 ms or more after its session expired is accepted |
| JwtStrategy.CacheStaysSmall | backend/src/modules/auth/jwt.strategy.ts:46-47 | the cache never holds more than 5001 entries |
| Client.ApiClient.RefreshSession | frontend/lib/api/client.ts:89-107 | joins the refresh under way, or starts one with the current cookie |
| Client.ApiClient.Respond | frontend/lib/api/client.ts:166-176 | what a response does to a call: refresh on a first 401, pause on a repeatable 429, otherwise done |
| Client.ApiClient.Resume | frontend/lib/api/client.ts:169-177 | a call goes on after its refresh or its pause |
| Client.ApiClient.RefreshReturns | frontend/lib/api/client.ts:91-105 | tokens are stored, a refusal drops the access token, a failure changes neither; every waiting call learns the same outcome |
| ClientCalls.CallIsSentAtOnce | frontend/lib/api/client.ts:150-167 | a call sends its first request at once, under the access token if it is an authenticated one |
| ClientCalls.FirstResponse | frontend/lib/api/client.ts:166-178 | after any run, a 401 to the first request of an authenticated call outside `/auth/` makes it wait for a refresh, the one under way or a new one with the current cookie; any other 401 ends its call, a 429 pauses a call that may be repeated, anything else ends it |
| ClientCalls.UnauthorizedIsRetried | frontend/lib/api/client.ts:166-171 | when that refresh brings tokens, however late and whatever happens meanwhile, the call sends exactly one more request, under the new session |
| ClientCalls.ExpiredTokenIsRenewed | frontend/lib/api/client.ts:89-171 | while the refresh token works, a 401 to the first request of a call leads to one more request under a new live session of the same user, which the browser then holds, and the old session is revoked |
| ClientCalls.DeadTokenEndsTheCall | frontend/lib/api/client.ts:89-171 | when the refresh token does not work, the call ends with its 401 after one request and the access token is dropped |
| ClientCalls.RetryResponse | frontend/lib/api/client.ts:166-179 | the answer to that request ends the call, a second 401 included, unless it is a 429 to a call that may be repeated |
| ClientCalls.PausedCallIsRepeatedOnce | frontend/lib/api/client.ts:172-179 | after its pause a call sends exactly one more request, under the access token of that moment, and then ends whatever the answer |
| ClientCalls.RefreshOutcomes | frontend/lib/api/client.ts:89-107 | tokens replace what the browser holds, a refusal drops the access token, a failure changes nothing |
| ClientCalls.SignInIsHeld | frontend/lib/api/auth.ts:26-36 | the session a sign-in gets is live and is what the browser holds; a refused sign-in changes nothing it holds |
| ClientCalls.SignOutForgets | frontend/lib/api/auth.ts:38-44 | signing out leaves the browser with nothing and ends the sessions of its cookie and its accepted access token |
| ClientLaws.AtMostThreeRequests | frontend/lib/api/client.ts:150-184 | over any run a call sends at most one request, plus one if a refresh may follow a 401, plus one if it may be repeated; none waits for a refresh that is not under way |
| ClientLaws.WaitersShareTheRefresh | frontend/lib/api/client.ts:85-107 | after any run, the refresh under way serves every waiting call: with tokens each is sent once more under the session just issued, without them each ends with its 401 |
| ClientLaws.EndsExactly | backend/src/modules/auth/auth.service.ts:113-199 | the guards under which a call ends a live session, both directions |
| ClientLaws.StaysSafeIff | frontend/lib/api/client.ts:85-107 | every token the browser may present stays unrevoked over an event, its own turns, sign-ins and sign-outs or anybody's calls, if and only if the event is harmless |
| ClientLaws.NeverTakenForTheft | frontend/lib/api/client.ts:85-107 | over any undisturbed run, with any number of concurrent 401s, no refresh is ever answered as a reuse |
| ClientLaws.DeadCookieLooksStolen | backend/src/modules/auth/auth.service.ts:117-123 | a browser left with a revoked cookie ends every session of its user at its next refresh |
| ClientLaws.LostAnswerKillsCookie | frontend/lib/api/client.ts:91-105 | losing the answer that exchanged the cookie leaves the browser with a revoked one |
| ClientLaws.LogoutEverywhereBackfires | backend/src/modules/auth/auth.service.ts:137-139 | a session started after logging out everywhere is ended by the next refresh of another browser |
| Smooth.FillSlopes | frontend/components/admin/finance-desk.tsx:217-218 | the loop fills the gaps and the slopes |
| Smooth.FillTangents | frontend/components/admin/finance-desk.tsx:219-221 | the loop fills the first tangents: end slopes, zero at turns, means elsewhere |
| Smooth.LimitTangents | frontend/components/admin/finance-desk.tsx:222-226 | the limiting loop, each iteration reading what the one before it wrote |
| Smooth.SmoothPath | frontend/components/admin/finance-desk.tsx:213-233 | a polyline below three points, otherwise the cubic path with the limited tangents |
| SmoothTangents.InnerPointsAreDrawn | frontend/components/admin/finance-desk.tsx:217-231 | the path passes an inner point along the mean of the two slopes when they have one sign and both segments are gentle, and flat when they turn or one is flat |
| SmoothTangents.EndsAreDrawn | frontend/components/admin/finance-desk.tsx:217-231 | at the outer end of a gentle outer segment the path leaves, or arrives, along the slope of that segment |
| SmoothTangents.SteepSegmentScaled | frontend/components/admin/finance-desk.tsx:224-225 | a segment that is not gentle gets both tangents scaled by one factor, in their own directions, onto the circle of radius three slopes |
| SmoothTangents.LoopCarries | frontend/components/admin/finance-desk.tsx:222-226 | the loop limits the segments from the first to the last, each on the tangent the one before it left |
| SmoothLaws.OnTheCircle | frontend/components/admin/finance-desk.tsx:224-225 | scaling by 3 / sqrt(h) shrinks both ratios onto the circle of radius three |
| SmoothLaws.GentleSegmentUntouched | frontend/components/admin/finance-desk.tsx:224-225 | tangents within the circle are left as they are |
| SmoothLaws.LimitStep | frontend/components/admin/finance-desk.tsx:222-226 | rewriting a tangent that the previous segment had limited keeps that segment fitted |
| SmoothLaws.FinalTangentsFit | frontend/components/admin/finance-desk.tsx:219-226 | after the loop every tangent fits both segments it belongs to |
| SmoothLaws.BezierMonotone | frontend/components/admin/finance-desk.tsx:227-231 | a cubic with both control ordinates between its ends is monotone and stays between them |
| SmoothLaws.CurveNeverOvershoots | frontend/components/admin/finance-desk.tsx:212-233 | on every segment both controls lie between the data, and the curve is monotone from one data point to the next |
| SmoothLaws.CurveIsGraph | frontend/components/admin/finance-desk.tsx:228-231 | the path passes through every data point and its abscissa moves at constant speed |
| SmoothLaws.JointsAreSmooth | frontend/components/admin/finance-desk.tsx:228-231 | the curve leaves every inner point with the tangent it arrived with |
| Counter.DocumentCounterService.Take | backend/src/platform/counters/document-counter.service.ts:22-36 | inserts the row if missing, increments it and prints the number taken |
| Counter.CommittedNumbersAreGapless | backend/src/platform/counters/document-counter.service.ts:15-36 | under any interleaving, commits and rollbacks, the committed numbers of a scope are start, start + 1, … with no gap and no repeat |
| Counter.NextNumber | backend/src/platform/counters/document-counter.service.ts:22-36 | in every reachable state the next number can be taken if and only if no other open transaction has taken one of the scope; it is the one behind those committed and those the transaction took itself, and nothing else changes |
| Counter.EndsOfTransactions | backend/src/platform/counters/document-counter.service.ts:15-36 | a commit publishes exactly the numbers its transaction took, a rollback none |
| Counter.TakenNumberIsPrinted | backend/src/platform/counters/document-counter.service.ts:29-35 | every number is printed with its own scope's prefix and padding |
| Counter.PrintedNumbersDiffer | backend/src/common/utils/text.ts:40-42 | two committed numbers of a scope print differently, past the padding too |
| Counter.ScopesNeverCollide | backend/src/platform/counters/document-counter.service.ts:7-13 | with the shipped prefixes no two documents of any kinds print alike |
| Counter.FirstNumbers | backend/src/platform/counters/document-counter.service.ts:7-13 | the first documents of a fresh database are CLO-2042, INV-000001, RCT-000001, CRN-000001 and PUR-000101 |
| Text.PadNoInjective | backend/src/common/utils/text.ts:40-42 | a padded number prints like another only if the two are equal, whatever the widths |
| Csv.DecodeCell | frontend/components/admin/ui.tsx:50-53 | an escaped cell reads back as its text before any field end |
| Csv.QuotedIff | frontend/components/admin/ui.tsx:50-53 | a cell is written with quotes if and only if it holds a quote, a comma or a line feed |
| Csv.SmallTable | frontend/components/admin/ui.tsx:49-54 | a small table, character by character: byte order mark, commas, line feed, quotes where needed |
| Csv.PrintedTableDecodes | frontend/components/admin/ui.tsx:49-54 | a decoder after section 2 of RFC 4180, with line feeds between records, recovers the stringified table if and only if it has a row and no row is empty |
| Desc.ParseDesc | frontend/lib/desc.ts:11-24 | the loop over lines collects the intro lines and the points of the text |
| DescLines.ParseGoesByLine | frontend/lib/desc.ts:11-24 | of two texts, one below the other, the intro is that of both and the points are those of both |
| DescLines.MarkedLine | frontend/lib/desc.ts:9-20 | a character, a space and a text are a point after one of the seven bullet characters, a line of the intro after any other |
| DescLines.MarkNeedsSpace | frontend/lib/desc.ts:9-20 | without the space after it a bullet character starts no point |
| DescLines.NumberedLine | frontend/lib/desc.ts:9-20 | a number, a dot or a bracket, a space and a text are a point with that text; with any other character in place of the dot they are a line of the intro |
| DescLines.WhiteSpaceIsTrimmed | frontend/lib/desc.ts:15-20 | a character around a word is dropped if and only if it is one of the white-space code points |
| DescLines.SmallDescription | frontend/lib/desc.ts:26-29 | a small description, character by character: the intro, then each point behind its bullet |
| Desc.ParsedIsCanonical | frontend/lib/desc.ts:11-24 | whatever was parsed has trimmed non-empty single-line points and an intro of trimmed lines that are no bullets |
| Desc.RoundTripIffCanonical | frontend/lib/desc.ts:9-29 | printing and parsing leaves a description unchanged if and only if it is canonical, points that start with a bullet mark included |
| Desc.ParsedSurvives | frontend/lib/desc.ts:9-29 | printing and parsing what was parsed changes nothing, for every text |
| Witnesses.ReleaseOfNothingDrifts | backend/docs/database.md:27 | a release of one copy on an empty shelf leaves the counter at zero and the ledger's reserved column at minus one |
| Witnesses.BackorderStopsAtEmptyShelf | backend/src/modules/inventory/inventory.service.ts:66-73 | a backorder product can be reserved from an empty shelf and then not handed over |
| Witnesses.UntrackedStopsAtEmptyShelf | backend/src/modules/inventory/inventory.service.ts:31-36 | a product without stock tracking cannot be reserved from an empty shelf |
| Witnesses.NegativeTotalIsLost | backend/src/common/utils/money.ts:43-65 | minus one paisa over two equal weights comes out as nothing |
| Witnesses.EmptyRowReadsBackAsEmptyCell | frontend/components/admin/ui.tsx:49-54 | a row without cells, or a table without rows, reads back as one empty cell |

## Left out

Of the inventory:

- Sale prices, `initial_copies`, titles, notes, actors, sources of batches and metrics: they do not feed back into stock or cost.
- The 32-bit and twelve-digit widths of columns; quantities are integers, so the test that a quantity is a whole number is met by type.
- Batch ids are numbered in the order of creation, product ids in the order `localeCompare` puts them in, and consumption rows stand in the order they were written; ties in `created_at` are broken that way.
- The stamped cost is kept per order and product rather than on order lines and bundle components.
- Editing the cost price on the product form, and editing products' flags, are other services' calls: a run may start from any cost price, and the flags of a product are fixed over a run.
- Two transactions changing one product at once: the row lock makes each call one step; only the order of locks is modelled, in `Locks`. (`addBatch` reads the cost price just before it locks the row; the model reads it under the lock.)

Of money and the curve:

- decimal.js keeps twenty significant digits, PostgreSQL rounds a quotient that is already cut, JavaScript numbers are floats: shares, remainders, averages and curve points are exact here, and the square root is any function that is one.
- Weights below zero: the method handles them like the code, the laws are about the non-negative weights it is used with.
- Data points with equal abscissas: the code divides by zero; the curve is modelled for strictly rising ones.

Of sessions:

- Hashing, JWT signing, secrets and SMS: passwords are compared for equality, a token is named by its session, whether a reset code is accepted is a parameter, and so are the lifetime of refresh tokens and the clock.
- AuthService.AuthService.Register: does not model the form of the phone number nor that phone and email clash separately; an account is one key, taken or free.
- AuthService.AuthService.ResetPassword: does not model the codes themselves, their ten minutes and five attempts; whether the code is accepted is a parameter.
- Looking accounts up by phone or email, linking customers, audit rows and metrics; a deleted account is a flag on the user.
- Queries of one server call interleaving with another call's: each call is one step.
- The staff desk's other calls; blocking an account is a step of `Auth`, since it ends sessions and wipes the lockout counter, without its role checks.
- One server process has one liveness cache; several processes have one each, and each obeys the same bound.
- A sign-out is one step of the browser: no refresh starts between the server's handling of it and the arrival of its answer. Page reloads and other tabs sharing the cookie count as somebody else's calls. `logout-all` has no caller in the storefront or the admin; it is an event all the same.
- Clock and length of the pause after a 429.

Of the rest:

- Fractional numbers in CSV cells, the Blob and the download link.
- Numbers taken by a transaction that stays open for ever; `next` is modelled as returning when the row is free.
- Order, pricing, promotion, payment and finance services, the storefront and admin pages, configuration and telemetry are not part of this model.
