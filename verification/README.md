# Kigali freight: protocols and proofs

A Dafny model of the stateful parts of a freight dispatch system: the router
(an HTTP server over SQL) and the driver app. Every protocol is a machine of
events over explicit state; main results hold for every run, and where the code
breaks a promise the exact condition is proved and a run that breaks it is
given. Endpoints that write rows, and modules that keep state in memory, are
also modelled as classes whose methods are proved to answer and write what the
machine says.

| file | models |
|---|---|
| `Prelude.dfy` | options |
| `OrderModel.dfy` | the order table: transitions, transactions, what each writes to a row |
| `OrderTable.dfy` | the order endpoints in place, against that model |
| `OrderAnswers.dfy` | when each order endpoint commits and what it leaves, column by column |
| `OrderCapacity.dfy`, `OrderLog.dfy`, `OrderOffers.dfy`, `OrderMoney.dfy` | what every transaction and every run keeps |
| `PaymentRuns.dfy` | runs of payments that end with the wrong books |
| `PaymentPolicy.dfy` | what the driver's screen offers to do about the fare |
| `OfflineQueue.dfy` | the driver app's offline queue: one flush, repeated flushes |
| `OfflineLedger.dfy`, `OfflineSerial.dfy`, `OfflineRuns.dfy` | the queue over time, with every read and write of storage a step of its own; what holds when operations take turns; the runs that lose something |
| `Session.dfy`, `TokenStore.dfy` | silent session refresh between phone and server |
| `RateLimit.dfy` | the fixed-window limiter |
| `RouteSequencing.dfy`, `TripRuns.dfy`, `TripAnswers.dfy`, `TripTable.dfy` | multi-stop runs |
| `Onboarding.dfy` | one-time codes, invites and PINs, with overlapping requests |
| `Documents.dfy`, `Verification.dfy` | document review with late analysis; who counts as verified |
| `Batching.dfy` | pooling of pending orders |
| `Cash.dfy`, `CashSettlement.dfy`, `CashRecovery.dfy` | a driver's cash debt, its headline, paying it, and the three ways it is recovered |
| `Migrations.dfy` | the schema log, forward and back |

## How the model reads the code

- A database transaction is one event. What the code does in several statements
  outside one transaction is several events where the split matters: a payment
  (its gates, the request row, the call to the provider, the verdict and the order
  row), the driver's own payment of a cash debt, a token refresh, codes, invites and PINs, document uploads and their
  analysis, and each read and write of the app's storage. The expiry sweep's log
  rows, a placement's payment check and overlapping stop reports have their own
  lemmas.
- The provider is part of the model: a request is on the wire, on the customer's
  phone, approved, refused or lost, whatever the server's row says of it, and money
  moves when it is approved or when cash is recorded.
- Two photos of one kind and one name are taken not to be copied in the same
  millisecond (`OfflineQueue.CopiesShareAFileExactly` says when two share a file),
  and the id made for a refusal is taken to be new.
- Two rows of the migration log of one instant sort by name, in an order that is a
  parameter of the migration model.
- Row ids are positions in a table; weights and money are integers in the
  smallest unit the columns keep. JavaScript's floating-point rounding is not
  modelled.
- What other services answer (the mobile-money verdict, document analysis,
  distances, waiting charges, quotes, whether a number can take a request) is a
  parameter, so every answer is covered. A quote is a total and a fee; the
  driver's share is the rest.
- Some fields are history and exist for the statements: offers made and how
  each ended, the money taken and the money recorded, all credit given, the last
  base price, what was enqueued, how often a code was accepted or a commission
  recovered.
- `forceOrderStatus` and closing a stop do not consult the transition table;
  they are events of their own, and each theorem says whether it covers them.
  Closing a pickup stop can bring a finished order back.

## Where the code and its own words differ

- An order can be paid and cancelled: cancel while a request is out
  (`PaymentRuns.CancelledThenPaid`).
- Settlement depends on when the customer pays if the handover falls between a
  request and its answer (`PaymentRuns.HandoverUnderAPrompt`), or if an order
  is placed after its pickup wait was charged (`PaymentRuns.RepricingForgetsTheWait`).
- The comments want one collection per job and a price that stops moving once it
  was taken. The payment service writes the order without looking at it, so a job
  paid in cash can be marked failed or pending again and be paid twice
  (`PaymentRuns.CashMarkedFailed`, `PaymentRuns.PaidTwice`).
- The payment service says that a prompt does not expire on the server's clock, and
  times it out on that clock; it takes a call that failed for a request that is not
  there, and another sum for no payment. A customer can pay each of these requests
  and the fare again, and the order shows one of the two
  (`PaymentRuns.TimedOutThenCash`, `PaymentRuns.TwoPromptsAfterATimeOut`,
  `PaymentRuns.FailedCallThenApproved`, `PaymentRuns.MismatchThenCash`;
  `OrderMoney.PaymentFaithfulExactly` is the exact condition).
- A driver can pay a commission twice, once from the phone and once out of a payout
  (`CashRecovery.NettedWhilePaying`).
- A rejected entry is to keep its photo until somebody discards it. A discard deletes
  the photo first, so one that is cut short leaves the entry without
  (`OfflineRuns.CrashStrandsTheDiscarded`).
- An offer looks for decliners before it locks its orders, so a decline in between is
  overlooked (`OrderOffers.DeclineBeforeTheWriteIsReoffered`).
- The offline queue wants nothing to vanish unseen. Its lists are read and written
  in separate calls, so an addition, a retry or a discard that overlaps a flush can
  lose an action or bring one back (`OfflineRuns`).
- A forced status commits and then refers to a name that is not declared, so the
  caller is told it failed although it stands; the model follows the rows.
- An arrival refused because it is not the driver's own is refused after the row
  was written and without a rollback. The event has no effect in the model;
  `OrderLog.LeakedArrivalBreaksTheLog` says what a commit of that write does.
- An order sent back to the queue through the status endpoint keeps its driver and
  vehicle, so assigning it again can add less than its weight
  (`OrderAnswers.AssignLoadsAllExactly`).
- A declined job can come back through the status endpoint
  (`OrderOffers.StatusEndpointReoffers`).
- `cash.ts` says every refusal it makes is one the server also enforces; it
  counts settled jobs and the server does not
  (`CashSettlement.AppAndServerDisagreeExactly`).
- `routeSequencing.js` says a drop without its pickup can only come from a bad
  caller; both callers pass such drops for cargo already aboard
  (`RouteSequencing.CargoAboardIsDeliveredLast`).
- A cancelled run can be revived with nothing open on it, and then no report can
  complete it (`TripRuns.FinishedWhenDoneExactly`, `TripRuns.NothingOpenNeverCompletes`).
- A part payment below the oldest job's fee clears nothing, however often it is
  made (`CashSettlement.PartPaymentsClearNothing`).
- Both baseline rows of an existing deployment are marked in one statement and so
  at one time. Which of them one step back takes first depends on the database's
  text order: where `init_spatial_baseline.sql` sorts after `init_spatial.sql` (the C
  order) its down script runs on tables it never made, and elsewhere the rollback
  refuses (`Migrations.BootstrapThenRollback`).
- The limiter's bound is one request below twice its limit, and Retry-After
  (section 10.2.3 of RFC 9110) is not always enough when waited for exactly
  (`RateLimit.WaitingLongerThanRetryAfter`).

## Model

| member | source | states |
|---|---|---|
| `OrderModel.CountingMeansEveryOne` | kigali-freight-router/controllers/orderController.js:740-755 | When as many pending rows are locked as ids were sent, the ids are all different and every one names a pending order. |
| `OrderModel.CommittedRowsWereReady` | kigali-freight-router/controllers/orderController.js:745-793 | Every row any committed transaction writes met that transaction's guard on the row: pending and placed for an assignment, not declined by this driver for an offer, lapsed for the sweep, and so on. |
| `OrderTable.Table.LockRows` | kigali-freight-router/controllers/orderController.js:745-746 | The locked rows are those of the request that have the wanted status. |
| `OrderTable.Table.CurrentLoad` | kigali-freight-router/controllers/orderController.js:768-774 | The weight a vehicle carries, with one order left out or none. |
| `OrderTable.Table.AssignOrderBundle` | kigali-freight-router/controllers/orderController.js:659-800 | Answers with the first refusal that applies, or puts every order on the driver and the driver's newest vehicle and logs it; nothing else changes. |
| `OrderTable.Table.ReassignOrder` | kigali-freight-router/controllers/orderController.js:866-996 | Moves an assigned order to another driver's vehicle, or back to the queue, with the capacity check leaving the order itself out. |
| `OrderTable.Table.UpdateOrderStatus` | kigali-freight-router/controllers/orderController.js:1034-1177 | The status endpoint: the transition table, the driver's own statuses, no cancelling of a paid order, and the wait at the pickup on leaving it. |
| `OrderTable.Table.ForceOrderStatus` | kigali-freight-router/controllers/orderController.js:1245-1310 | A forced status needs a reason and a change, and skips the transition table. |
| `OrderTable.Table.ConfirmDelivery` | kigali-freight-router/controllers/orderController.js:1315-1540 | Delivery only from ARRIVED and on proof; the wait and the return-leg credit go to the price of an unpaid job and to the adjustment of a paid one, and a credit replaces the one in the column. |
| `OrderTable.Table.PlaceOneOrder` | kigali-freight-router/controllers/orderController.js:158-260 | Placing refuses once payment is committed and otherwise marks the order placed and reprices it. |
| `OrderTable.Table.OfferOrders` | kigali-freight-router/controllers/orderController.js:1989-2070 | Offers to a driver who declined none of the orders, for 30 minutes or what was asked, kept within 5 and 240. |
| `OrderTable.Table.AcceptOffer` | kigali-freight-router/controllers/orderController.js:2078-2120 | Taken up by the driver named, strictly before the deadline, and nobody else. |
| `OrderTable.Table.DeclineOffer` | kigali-freight-router/controllers/orderController.js:2128-2165 | Turned down by the driver named; the refusal is remembered. |
| `OrderTable.Table.SweepOffers` | kigali-freight-router/ops/expire-job-offers.js:14-28 | Every offer at or past its deadline, and no other, goes back to the queue with a log row. |
| `OrderTable.Table.PlanOrders` | kigali-freight-router/controllers/tripController.js:165-177 | Run planning refuses a missing order and, on creation, one that may not be planned; otherwise gives every order to the driver and assigns the pending ones. |
| `OrderTable.Table.CloseStop` | kigali-freight-router/controllers/tripController.js:640-660 | Closing a stop sets its order's status, whatever it was, and logs it unless nothing changed. |
| `OrderTable.LockedWeight` | kigali-freight-router/controllers/orderController.js:767 | Adding up the locked rows is the weight of the orders asked for. |
| `OrderAnswers.TransitionsExactly` | kigali-freight-router/utils/orderTransitions.js:28-61 | What may follow what, in words: a job not finished can be called off, one waiting is offered, taken back or assigned, an assigned one changes hands or goes back, on the road it only goes forward and only IN_TRANSIT reaches ARRIVED; nothing reaches DELIVERED. |
| `OrderAnswers.SameNameExactly` | kigali-freight-router/controllers/orderController.js:1078 | Driver names match if and only if they have the same letters, capital or small. |
| `OrderAnswers.NewestIsTaken` | kigali-freight-router/controllers/orderController.js:708-711 | The vehicle taken is the driver's with the highest id. |
| `OrderAnswers.AllPendingExactly` | kigali-freight-router/controllers/orderController.js:740-755 | As many rows are locked as ids were sent if and only if the ids are different and all name pending orders. |
| `OrderAnswers.AssignTakenExactly` | kigali-freight-router/controllers/orderController.js:659-800 | An assignment commits if and only if orders and a driver are named, the driver is registered, verified and free of cash debt, every order is there once, pending and placed, and the driver's newest vehicle has room for them on top of what it carries. |
| `OrderAnswers.AssignRefusedExactly` | kigali-freight-router/controllers/orderController.js:659-780 | Which reason is given against an assignment, exactly: a missing paper before a debt, a debt before the orders, their weight last. |
| `OrderAnswers.AssignLeaves` | kigali-freight-router/controllers/orderController.js:786-800 | Every order named is ASSIGNED to that driver and that newest vehicle, with a log row, and otherwise as it was; no other order changes. |
| `OrderAnswers.AssignLoads` | kigali-freight-router/controllers/orderController.js:766-793 | Any vehicle's load after an assignment: the newest vehicle gains the weight assigned, and every vehicle loses what of it already named it. |
| `OrderAnswers.AssignLoadsAllExactly` | kigali-freight-router/controllers/orderController.js:766-793 | The newest vehicle carries exactly what it did plus the weight assigned if and only if no order of any weight among them was already on it. |
| `OrderAnswers.ReassignTakenExactly` | kigali-freight-router/controllers/orderController.js:866-996 | A reassignment commits if and only if the order is placed and assigned, and goes to nobody, or to another driver, registered and verified, whose newest vehicle has room for it besides what else it carries. |
| `OrderAnswers.ReassignLeaves` | kigali-freight-router/controllers/orderController.js:900-996 | Given to nobody the order is PENDING without driver and vehicle; given to a driver it is on their newest vehicle; a log row says so and nothing else changes. |
| `OrderAnswers.ReassignLoads` | kigali-freight-router/controllers/orderController.js:961-990 | Every vehicle's load after a reassignment is what it carried besides the order, and the new one's the order on top. |
| `OrderAnswers.UpdateTakenExactly` | kigali-freight-router/controllers/orderController.js:1034-1127 | The status endpoint commits if and only if the change may follow, the order is the driver's own or the actor is staff, drivers report stages of the road and only they an arrival, and a paid order is not called off. |
| `OrderAnswers.UpdateRefusedExactly` | kigali-freight-router/controllers/orderController.js:1034-1127 | Which reason is given against a status change, exactly; somebody else's order is told before whether the change is in sequence. |
| `OrderAnswers.UpdateLeaves` | kigali-freight-router/controllers/orderController.js:1112-1150 | The order has the new status and a log row; leaving the pickup after a wait adds it to detention, price and driver share; nothing else changes. |
| `OrderAnswers.ForceTakenExactly` | kigali-freight-router/controllers/orderController.js:1245-1275 | A forced status commits if and only if a reason is given and it is another status. |
| `OrderAnswers.ForceLeaves` | kigali-freight-router/controllers/orderController.js:1278-1287 | Only status and log change: driver, vehicle and money stay. |
| `OrderAnswers.ConfirmTakenExactly` | kigali-freight-router/controllers/orderController.js:1315-1410 | A delivery is confirmed if and only if the proof is right, the order has arrived, and the actor is staff or the driver the order names. |
| `OrderAnswers.ConfirmRefusedExactly` | kigali-freight-router/controllers/orderController.js:1315-1410 | Which reason is given against a delivery, exactly: the proof first, then whether the job is over or not there yet, then whose it is. |
| `OrderAnswers.ConfirmLeaves` | kigali-freight-router/controllers/orderController.js:1484-1533 | The order is DELIVERED with a log row; the wait is detention; wait less credit goes to the driver's share, and to the adjustment of a paid order or the price of an unpaid one. |
| `OrderAnswers.EveryJobCanBeDelivered` | kigali-freight-router/utils/orderTransitions.js:28-61 | From ASSIGNED its own driver brings any job to DELIVERED in four reports. |
| `OrderAnswers.PlaceTakenExactly` | kigali-freight-router/controllers/orderController.js:158-197 | Placing commits if and only if place and hub are known and no payment is made or out. |
| `OrderAnswers.PlaceLeaves` | kigali-freight-router/controllers/orderController.js:189-249 | The order is placed; repriced, its price is the quote's total, the platform's fee the quote's fee and the driver's share the rest. |
| `OrderAnswers.CreateLeaves` | kigali-freight-router/controllers/orderController.js:189-249 | A new order waits unpaid with the quote split the same way, an estimate until placed. |
| `OrderAnswers.OfferTakenExactly` | kigali-freight-router/controllers/orderController.js:1989-2047 | An offer commits if and only if the driver is registered, declined none of the orders, and every order is there once, pending and placed. |
| `OrderAnswers.OfferLeaves` | kigali-freight-router/controllers/orderController.js:2049-2062 | Every order is OFFERED to the driver until now plus 30 minutes, or what was asked kept within 5 and 240. |
| `OrderAnswers.AcceptTakenExactly` | kigali-freight-router/controllers/orderController.js:2078-2104 | An accept commits if and only if the order is on offer to that driver and the deadline, if any, is still to come. |
| `OrderAnswers.AcceptLeaves` | kigali-freight-router/controllers/orderController.js:2089-2104 | The order is ASSIGNED to the driver it was offered to, without a deadline. |
| `OrderAnswers.DeclineTakenExactly` | kigali-freight-router/controllers/orderController.js:2128-2152 | A decline commits if and only if the order is on offer to that driver. |
| `OrderAnswers.DeclineLeaves` | kigali-freight-router/controllers/orderController.js:2136-2152 | The order is back in the queue with nobody, and remembers who declined. |
| `OrderAnswers.SweepLeaves` | kigali-freight-router/ops/expire-job-offers.js:14-28 | Exactly the offers at or past their deadline are back in the queue. |
| `OrderAnswers.PlanTakenExactly` | kigali-freight-router/controllers/tripController.js:165-177 | Run planning commits if and only if every order is there and, for a new run, none is on offer, at its pickup or finished. |
| `OrderAnswers.PlanLeaves` | kigali-freight-router/controllers/tripController.js:230-260 | Every order is the driver's, the pending ones now ASSIGNED; nothing else changes. |
| `OrderAnswers.StopDoneLeaves` | kigali-freight-router/controllers/tripController.js:640-660 | Closing a pickup leaves the order PICKED_UP and closing a drop DELIVERED, whatever it was, with a log row when that is a change. |
| `OrderAnswers.FareTakenExactly` | kigali-freight-router/services/paymentService.js:83-104 | A fare is asked for or taken in cash if and only if it is due, from the road on, unpaid, at a settled price, and no request is out; a request also needs a phone and a currency. |
| `OrderAnswers.PayLeaves` | kigali-freight-router/services/paymentService.js:136-314 | No payment statement touches price, fee, share, adjustment, detention, credit or anything outside the money columns. |
| `OrderCapacity.RowAddsOnlyByAssignment` | kigali-freight-router/controllers/orderController.js:708-793 | No write but an assignment, a reassignment or a revival adds weight to a vehicle. |
| `OrderCapacity.LoadAfterReassign` | kigali-freight-router/controllers/orderController.js:967-990 | After a reassignment the new vehicle is within its limit. |
| `OrderCapacity.LoadAfterRevival` | kigali-freight-router/controllers/orderController.js:1245-1287 | Bringing a finished order back adds exactly its weight to the vehicle it was left on. |
| `OrderCapacity.StepKeepsCapacityIff` | kigali-freight-router/controllers/orderController.js:708-793 | Every transaction keeps every limit, except that bringing a finished order back keeps it if and only if the order still fits. |
| `OrderCapacity.CapacityHoldsOverEveryRun` | kigali-freight-router/controllers/orderController.js:907-990 | Over every run no vehicle with a recorded limit carries more than it, as long as nothing is brought back that no longer fits. |
| `OrderCapacity.ForcedRevivalOverloads` | kigali-freight-router/controllers/orderController.js:1278-1287 | A run of one forced change that overloads a vehicle. |
| `OrderLog.SilentExactly` | kigali-freight-router/controllers/orderController.js:2049-2056 | A write logs exactly the edge it takes, or changes no status; only offering and planning a pending order do not log. |
| `OrderLog.LogReplaysEveryRun` | kigali-freight-router/controllers/orderController.js:786-800 | Over every run, forced changes and stops included, each order's log chains and ends at its live status, up to PENDING to OFFERED and PENDING to ASSIGNED; without offers and planning it does so exactly. |
| `OrderLog.LateSweepEntryBreaksTheLog` | kigali-freight-router/ops/expire-job-offers.js:14-28 | The sweep logs after its update, so an assignment in between leaves a log that does not chain. |
| `OrderLog.LeakedArrivalBreaksTheLog` | kigali-freight-router/controllers/orderController.js:1121-1127 | The refusal of an arrival after the row was written does not roll back; if that write is committed later the log no longer replays. |
| `OrderOffers.RowKeepsLedger` | kigali-freight-router/controllers/orderController.js:2089-2104 | Under its guard every write keeps the ledger of offers, whichever way an order gets on offer or off it: all offers made but the one it is on have one ending each, and an ending is recorded exactly when the order leaves OFFERED. |
| `OrderOffers.EndingNeedsAnOffer` | kigali-freight-router/controllers/orderController.js:2136-2152 | An accept, a decline or a lapse keeps that ledger if and only if the order is on offer: without that test in its guard an offer would end twice. |
| `OrderOffers.EachOfferEndsOnce` | kigali-freight-router/controllers/orderController.js:2136-2152 | Over every run of guarded transactions no offer is resolved twice. |
| `OrderOffers.AcceptXorSweep` | kigali-freight-router/controllers/orderController.js:2089-2104 | At every instant exactly one of the named driver's accept and the sweep can move an offer. |
| `OrderOffers.StrandedOfferExactly` | kigali-freight-router/ops/expire-job-offers.js:14-20 | An offer is out of reach of both exactly when it names nobody and has no deadline or one still to come. |
| `OrderOffers.ExpiredOfferIsNeverTakenUp` | kigali-freight-router/controllers/orderController.js:2089-2104 | Once its deadline has passed, no later run of transactions makes an offer end as taken up. |
| `OrderOffers.ReofferedExactly` | kigali-freight-router/controllers/orderController.js:2009-2030 | A driver is offered a job they declined exactly when the status endpoint, a forced status or run planning goes round the offer check. |
| `OrderOffers.StepReoffersExactly` | kigali-freight-router/controllers/orderController.js:2009-2030 | The same for a whole transaction: if and only if it goes round the check on one of its rows. |
| `OrderOffers.WriteReoffersExactly` | kigali-freight-router/controllers/orderController.js:2013-2056 | An offer written on another board than it was checked on reaches nobody who declined, if and only if none of its orders was declined by that driver meanwhile. |
| `OrderOffers.DeclinersAreLeftAlone` | kigali-freight-router/controllers/orderController.js:2009-2056 | Over every run, with offers whose check was made earlier than their write, nobody is offered a job they declined, as long as no transaction goes round the check and no driver declines between the two. |
| `OrderOffers.DeclineBeforeTheWriteIsReoffered` | kigali-freight-router/controllers/orderController.js:2013-2030 | A run in which a driver is offered again at once what they declined between the check and the lock. |
| `OrderOffers.StatusEndpointReoffers` | kigali-freight-router/utils/orderTransitions.js:28-45 | Unassigning and re-offering through the status endpoint offers a declined job again. |
| `OrderMoney.RowBalancedExactly` | kigali-freight-router/controllers/orderController.js:1135-1150 | A write keeps price, recorded takings and adjustment in step with the order's history if and only if it does not reprice over a wait or credit, charge a pickup wait on a paid order, set a paid order's payment status unguarded, or land money on another price or on a paid order. |
| `OrderMoney.PaymentFaithfulExactly` | kigali-freight-router/services/paymentService.js:136-164 | Money the customer parts with, at the provider or in cash, stays on the order or on its way there, and every request that can still take some stays the one waited on, if and only if the server does not give up on one: time it out, take its call for failed, or fail it over another sum, while the customer can still pay or has. |
| `OrderMoney.RowStraightExactly` | kigali-freight-router/services/paymentService.js:220-314 | A write keeps the books, on what is recorded and on what was taken, if and only if both conditions hold. |
| `OrderMoney.RowKeepsSplitExactly` | kigali-freight-router/controllers/orderController.js:189-249 | Price plus adjustment stays platform fee plus driver share after every write, except exactly when an order that carries an adjustment is repriced. |
| `OrderMoney.RowAskedAfterPickupExactly` | kigali-freight-router/services/paymentService.js:83-104 | Money is asked for only past the pickup; only a forced status can take such an order back before it. |
| `OrderMoney.LeavesPaidExactly` | kigali-freight-router/services/paymentService.js:203-206 | An order leaves PAID exactly when the failure of a request, or the note that one was sent, is written over it; its price moves exactly when a pickup wait is charged, and its takings only when money lands again. |
| `OrderMoney.PaidAndCancelledExactly` | kigali-freight-router/controllers/orderController.js:1102-1109 | Paid and cancelled comes about exactly by money written to an order cancelled meanwhile or by forcing a paid one to CANCELLED. |
| `OrderMoney.CurrentExactly` | kigali-freight-router/services/paymentService.js:136-164 | An amount being asked for, or paid and not yet on the order, stays the order's price if and only if meanwhile the handover does not move an unpaid price, no pickup wait is charged and the order is not repriced. |
| `OrderMoney.RowOrderlyExactly` | kigali-freight-router/services/paymentService.js:211-262 | Payments of one order stay in turn if and only if none begins while another can still write; any number of readers of one request's verdict is in turn, because only one of them resolves it. |
| `OrderMoney.StepKeepsSplitExactly` | kigali-freight-router/controllers/orderController.js:1509-1519 | The split, for a whole transaction on the board, if and only if no adjusted order is repriced. |
| `OrderMoney.SplitConservedEveryRun` | kigali-freight-router/controllers/orderController.js:1509-1519 | The split adds up after every run, with forced changes and overlapping payments, that reprices no adjusted order. |
| `OrderMoney.RowFeeAndShare` | kigali-freight-router/controllers/orderController.js:189-249 | A write changes the platform fee only by repricing, to the quote's fee; the driver's share becomes total less fee then, grows by the wait at the pickup and by wait less credit at the handover, and is otherwise untouched. |
| `OrderMoney.FeeIsTheLastQuotes` | kigali-freight-router/controllers/orderController.js:189-249 | Over every run the platform fee of an order is that of the last quote it was priced with. |
| `OrderMoney.StepKeepsBooksExactly` | kigali-freight-router/controllers/orderController.js:1484-1533 | The books, on what is recorded and on what was taken, if and only if, for a whole transaction on the board. |
| `OrderMoney.StepKeepsTakingsExactly` | kigali-freight-router/services/paymentService.js:461-495 | What was taken is on the orders or on its way after a transaction, if and only if it does not give up on a request at stake. |
| `OrderMoney.TakingsOverEveryRun` | kigali-freight-router/services/paymentService.js:461-495 | Over every run, with forced changes and overlapping payments, that never gives up on a request at stake, all money customers parted with is on their orders or on its way there. |
| `OrderMoney.SettlementOverEveryRun` | kigali-freight-router/controllers/orderController.js:1484-1533 | Over every run with payments in turn, no request given up at stake, no forced change, no repricing over a wait or an amount in motion and no handover at another price under one: the customer of a paid order has parted with its price once and no more, that plus the adjustment is the base price plus waits less credits, and once paid it stays paid at that price; before that they have parted with nothing but what is on its way. |
| `PaymentRuns.CashMarkedFailed` | kigali-freight-router/services/paymentService.js:281-286 | A run in which a declined request's second write marks a job paid in cash as failed. |
| `PaymentRuns.FareTakenOnce` | kigali-freight-router/services/paymentService.js:136-314 | Undisturbed, a fare is taken exactly once and recorded in full: in cash, by a request the customer approves, or in cash after one they refused. |
| `PaymentRuns.PaidTwice` | kigali-freight-router/services/paymentService.js:203-206 | A run in which the note that a request was sent lands on a job just paid in cash; when the customer answers that request too, twice the price has been taken. |
| `PaymentRuns.TimedOutThenCash` | kigali-freight-router/services/paymentService.js:485-491 | A run in which the provider has reported the fare paid, the request is timed out before that is written, and the fare is taken in cash as well; the order shows one of the two. |
| `PaymentRuns.TwoPromptsAfterATimeOut` | kigali-freight-router/services/paymentService.js:146-153 | After a time-out the next request makes two on one phone, and the customer can approve both. |
| `PaymentRuns.FailedCallThenApproved` | kigali-freight-router/services/paymentService.js:194-199 | A run in which a call that seemed to fail had arrived: what the customer approves is never heard of, and the fare can be charged again. |
| `PaymentRuns.MismatchThenCash` | kigali-freight-router/services/paymentService.js:254-268 | A run in which a request settled for another sum counts as failed and the fare is taken again. |
| `PaymentRuns.HandoverMovesATakenPrice` | kigali-freight-router/controllers/orderController.js:1484-1533 | Once a paid job no longer says so, the handover moves its price off what was taken by the wait less the credit. |
| `PaymentRuns.CashEitherSideOfTheHandover` | kigali-freight-router/services/paymentService.js:544-631 | Cash before and after the handover leaves the same total, share and fee. |
| `PaymentRuns.HandoverUnderAPrompt` | kigali-freight-router/services/paymentService.js:220-314 | A handover while a request is out leaves the books short by exactly the drop wait less the credit. |
| `PaymentRuns.RepricingForgetsTheWait` | kigali-freight-router/controllers/orderController.js:189-197 | Placing an order after its pickup wait was charged forgets that wait. |
| `PaymentRuns.RepriceLandingAfterPayment` | kigali-freight-router/controllers/orderController.js:158-260 | A reprice whose payment check came before a payment keeps the books exactly when the quote is the price paid and no wait is outstanding. |
| `PaymentRuns.RepriceLandingUnderARequest` | kigali-freight-router/controllers/orderController.js:158-260 | The same with a request raised in between: what the customer is asked for is the price exactly when the quote is the same, and otherwise the order is credited with the old price under the new one. |
| `PaymentRuns.CancelledThenPaid` | kigali-freight-router/services/paymentService.js:220-314 | Cancelling while a request is out and letting the customer answer it leaves a cancelled order paid. |
| `OrderMoney.CreditColumnExactly` | kigali-freight-router/controllers/orderController.js:1525 | The return-leg column is all the credit given, except exactly when an order is delivered with a credit a second time. |
| `PaymentPolicy.CashOfferedExactly` | kigali-freight-driver/lib/paymentPolicy.ts:81-167 | The screen offers cash exactly when no gate on the order refuses; the server then takes it unless a request is out. |
| `PaymentPolicy.MobileMoneyOfferedExactly` | kigali-freight-driver/lib/paymentPolicy.ts:146-166 | The server sends a request exactly when the screen offers one and none is out. |
| `PaymentPolicy.OfferedOnlyOnTheRoad` | kigali-freight-driver/lib/paymentPolicy.ts:44-53 | A fare is offered only in transit, arrived or delivered, and never on a paid job. |
| `PaymentPolicy.ScreenExactly` | kigali-freight-driver/lib/paymentPolicy.ts:81-167 | What the screen shows, by the order's own columns: nothing of an order on offer or called off, paid, cash and mobile money, and why neither. |
| `OfflineQueue.Store.PersistPhoto` | kigali-freight-driver/lib/offlineQueue.ts:98-130 | The copy goes into its kind's folder under the time and the name it came with; no other file changes. |
| `OfflineQueue.Store.EnqueueOfflineAction` | kigali-freight-driver/lib/offlineQueue.ts:132-137 | The action goes to the end of the queue. |
| `OfflineQueue.Store.RetryRejectedAction` | kigali-freight-driver/lib/offlineQueue.ts:206-216 | A rejected entry goes back on the end of the queue and leaves the rejected store; an unknown id changes nothing. |
| `OfflineQueue.Store.DiscardRejectedAction` | kigali-freight-driver/lib/offlineQueue.ts:220-228 | The entry and its photo go, and no other entry. |
| `OfflineQueue.Store.SweepAgedRejections` | kigali-freight-driver/lib/offlineQueue.ts:235-254 | Keeps, in order, every entry not older than the retention period or without a readable date, and deletes the photos of the others. |
| `OfflineQueue.Store.FlushOfflineQueue` | kigali-freight-driver/lib/offlineQueue.ts:258-347 | Leaves queue, rejected store and files as the attempt-in-order specification says; a second flush at once changes nothing. |
| `OfflineQueue.CopiesShareAFileExactly` | kigali-freight-driver/lib/offlineQueue.ts:98-130 | Two photo copies are kept in one file if and only if they are of one kind and name and were made in the same millisecond. |
| `OfflineQueue.FlushAttemptsUpToFirstRetryable` | kigali-freight-driver/lib/offlineQueue.ts:258-347 | A flush attempts in order up to the first retryable failure: what is left is exactly the queue from there, what came before was sent or refused, each once and in order. |
| `OfflineQueue.RoundMakesProgress` | kigali-freight-driver/lib/offlineQueue.ts:330-335 | A flush that does not empty the queue uses up one failure of the action it stopped at. |
| `OfflineQueue.FailuresSplitByStatus` | kigali-freight-driver/lib/retryable.ts:13-29 | An action a flush reaches and that fails is still queued when there was no status, 0, 408, 429 or one from 500 up, and filed as refused on any other; never both. |
| `OfflineQueue.OneFailure` | kigali-freight-driver/lib/retryable.ts:13-29 | A single action that fails: kept with its photo for exactly those statuses, and otherwise refused with that status. |
| `OfflineQueue.SweepKeepsExactly` | kigali-freight-driver/lib/offlineQueue.ts:235-254 | A rejected entry survives the sweep if and only if it has no readable date or is at most fourteen days old. |
| `OfflineQueue.EnoughFlushesEmptyTheQueue` | kigali-freight-driver/lib/retryable.ts:13-29 | With a server that fails each action any number of times with any statuses that are kept, then takes it or refuses it with any other, flushing more often than there are failures to come empties the queue. |
| `OfflineQueue.MissingPhotoBlocksForEver` | kigali-freight-driver/lib/offlineQueue.ts:284-293 | An action whose photo copy is gone can never be cleaned up after and holds up the queue for ever, even with a server that takes everything. |
| `OfflineLedger.StepAccounts` | kigali-freight-driver/lib/offlineQueue.ts:132-347 | With every read and write of storage a step of its own: an action is unaccounted for after a step exactly when it was before and the step does not bring it back or dispose of it, or the step overwrites it. |
| `OfflineLedger.OverwritesExactly` | kigali-freight-driver/lib/offlineQueue.ts:211-214 | A write of the queue overwrites exactly what is only there and came since its writer read it; a write of the rejected store exactly what was filed only there since then, and a retry its own action if the queue has lost it; the end of the process exactly what was only in memory. |
| `OfflineLedger.LedgerOverEveryRun` | kigali-freight-driver/lib/offlineQueue.ts:132-347 | Over every run, with calls of any number of operations, a flush and crashes falling anyhow between one another, what has vanished is exactly what some step overwrote and none returned. |
| `OfflineLedger.NothingVanishesUninterrupted` | kigali-freight-driver/lib/offlineQueue.ts:132-347 | Nothing ever vanishes in a run with no write over a list changed since it was read and no end of the process during an addition or with refusals to file. |
| `OfflineLedger.EvidenceOverEveryRun` | kigali-freight-driver/lib/offlineQueue.ts:220-254 | Over every run a photo copy is gone only after its upload went through, or for a discard or sweep that has written its entry off, is about to, or was cut short by the end of the process; different actions keep theirs in different files. |
| `OfflineLedger.SweepRetiresOnlyTheOld` | kigali-freight-driver/lib/offlineQueue.ts:235-254 | Only the sweep retires an entry, and only one with a readable date older than the retention period. |
| `OfflineLedger.CopyKeptExactly` | kigali-freight-driver/lib/offlineQueue.ts:220-254 | When every held action has its copy, exactly these steps leave one without: a write that brings back one whose copy is gone, the end of a disposal of one held besides, sending one twice in a flush, the flush writing when one just sent is held elsewhere, and the process ending when one was just sent or its copy was deleted for a disposal that had still to write. |
| `OfflineLedger.AttemptedIsAStep` | kigali-freight-driver/lib/offlineQueue.ts:317-318 | Each attempt of a flush nothing comes between is a step of the protocol, when refusals are numbered upwards. |
| `OfflineLedger.UninterruptedFlush` | kigali-freight-driver/lib/offlineQueue.ts:258-347 | Run without interruption, the steps of a flush come to what the flush of the module does. |
| `OfflineSerial.OnePlaceOverEveryRun` | kigali-freight-driver/lib/offlineQueue.ts:206-216 | Over every run in which operations take turns an action is in one place, queued, rejected or about to be filed; only a retry has it in two on the way. |
| `OfflineSerial.CopiesOverEveryRun` | kigali-freight-driver/lib/offlineQueue.ts:220-254 | In such runs, in which the process does not end between the deletes and the write of a discard or sweep either, every action held has its own photo copy whenever no flush is sending, but for one that the discard or sweep going on has just deleted. |
| `OfflineSerial.TurnsLoseExactly` | kigali-freight-driver/lib/offlineQueue.ts:337-341 | In such runs an action is lost exactly when it was queued behind a flush that then writes the queue back, or the process ends before it was queued or between its refusal and the filing of it. |
| `OfflineSerial.TurnsAreFresh` | kigali-freight-driver/lib/offlineQueue.ts:337 | In such runs the only write over a list that has changed is a flush's over a queue that has grown. |
| `OfflineRuns.DiscardWhileFilingLosesTheRefusal` | kigali-freight-driver/lib/offlineQueue.ts:220-228 | A run in which a discard that overlaps a flush's filing loses the refusal being filed. |
| `OfflineRuns.FilingAfterADiscardRevivesIt` | kigali-freight-driver/lib/offlineQueue.ts:339-341 | The other order of the two writes: the discarded entry is back, without its photo. |
| `OfflineRuns.LateAddRevivesTheSent` | kigali-freight-driver/lib/offlineQueue.ts:132-137 | A run in which an addition brings back an action already sent, without its copy. |
| `OfflineRuns.LateAddRequeuesTheRefused` | kigali-freight-driver/lib/offlineQueue.ts:132-137 | A run that leaves an action both queued and rejected. |
| `OfflineRuns.EnqueueDuringFlushIsLost` | kigali-freight-driver/lib/offlineQueue.ts:263-337 | A run in which an action queued during a flush is lost. |
| `OfflineRuns.CrashBetweenWritesLosesRefusal` | kigali-freight-driver/lib/offlineQueue.ts:337-341 | A run in which a refusal is lost between the two writes. |
| `OfflineRuns.RetryDuringFlushIsLost` | kigali-freight-driver/lib/offlineQueue.ts:206-216 | A run in which a retried refusal is lost. |
| `OfflineRuns.CrashStrandsTheUpload` | kigali-freight-driver/lib/offlineQueue.ts:284-293 | A run that leaves a queued action without its uploaded copy. |
| `OfflineRuns.CrashStrandsTheDiscarded` | kigali-freight-driver/lib/offlineQueue.ts:225-226 | A run in which the process ends between a discard's delete and its write: the entry is still there without its photo, and a retry queues it so. |
| `Session.ProtocolOverEveryRun` | kigali-freight-driver/lib/tokenStore.ts:117-195 | Over every run: at most one refresh at a time, and a token works exactly until it is revoked elsewhere or a refresh spends it. |
| `Session.JoinersShareOneRefresh` | kigali-freight-driver/lib/tokenStore.ts:124-125 | While a refresh runs no second request goes out, everyone who asks is handed that one, and what it answered never changes. |
| `Session.OnlyARefusalClears` | kigali-freight-driver/lib/tokenStore.ts:162-165 | Stored tokens go away only by signing out or after the server refused the refresh token. |
| `Session.SessionOverCalmRuns` | kigali-freight-driver/lib/tokenStore.ts:117-195 | Without sign-in, sign-out or a storage read during a refresh, cache, storage and the refresh in progress agree. |
| `Session.StoredTokenWorksExactly` | kigali-freight-router/controllers/authController.js:257-283 | In such runs the stored token works if and only if it was not revoked elsewhere and no refresh that spent it is without its answer saved. |
| `Session.TokensBelongToTheDriverShown` | kigali-freight-driver/lib/tokenStore.ts:60-71 | In such runs, with what a sign-in stores stored together, the tokens are those of the driver shown. |
| `Session.SignedOutOnlyOverADeadToken` | kigali-freight-driver/lib/tokenStore.ts:154-165 | In such runs a driver who does not sign out is signed out only over a token that no longer works. |
| `Session.ValidatedOnlyWhileUnspent` | kigali-freight-router/services/refreshTokenService.js:29-40 | A token is validated only while no refresh has spent it. |
| `Session.OneTokenSpentTwice` | kigali-freight-router/controllers/authController.js:264-278 | Two requests both validated before either spent the token are both answered: one single-use token has become two. |
| `Session.TwoTokensFromOneSignIn` | kigali-freight-router/controllers/authController.js:264-278 | A run that does so: one sign-in ends with two refresh tokens that work. |
| `Session.SignOutDuringRefreshIsUndone` | kigali-freight-driver/lib/tokenStore.ts:73-83 | Signing out while an answer is on its way does not last. |
| `Session.SignedOutWithAWorkingToken` | kigali-freight-driver/lib/tokenStore.ts:73-83 | A run from the first sign-in in which the driver signs out and the phone ends up holding a token that works. |
| `Session.SignInDuringRefreshMixesDrivers` | kigali-freight-driver/lib/tokenStore.ts:62-71 | Signing in as another driver at that moment leaves the first one's tokens under the second one's name. |
| `Session.LostAnswerEndsTheSession` | kigali-freight-driver/lib/tokenStore.ts:186-190 | Once the token is spent, a phone that stopped waiting is signed out by its next refresh. |
| `Session.HydrateWhileSavingEndsTheSession` | kigali-freight-driver/lib/tokenStore.ts:38-47 | Reading storage back while an answer is being saved makes the phone present the spent token and be signed out. |
| `TokenStore.Store.HydrateTokenStore` | kigali-freight-driver/lib/tokenStore.ts:38-47 | The cache is what storage holds. |
| `TokenStore.Store.SetTokens` | kigali-freight-driver/lib/tokenStore.ts:49-58 | Cache and storage hold the new set and listeners hear it once. |
| `TokenStore.Store.SetRefreshedTokens` | kigali-freight-driver/lib/tokenStore.ts:62-69 | Only the token changes; the driver's name stays. |
| `TokenStore.Store.ClearTokens` | kigali-freight-driver/lib/tokenStore.ts:71-80 | Everything is gone from cache and storage. |
| `TokenStore.Store.RefreshAccessToken` | kigali-freight-driver/lib/tokenStore.ts:124-195 | Sends the cached token or else the stored one; cache and storage are emptied exactly for status 401 and 403, hold the new token exactly for a status from 200 to 299 that carries a pair, and are otherwise unchanged. |
| `TokenStore.UninterruptedRefresh` | kigali-freight-driver/lib/tokenStore.ts:124-195 | A refresh of the protocol that nothing comes between ends as the method does. |
| `TokenStore.CarriesExactly` | kigali-freight-driver/lib/tokenStore.ts:154-195 | What a reply means to the phone: a refusal exactly for status 401 and 403, a new pair exactly for a status from 200 to 299 that carries one, and otherwise nothing. |
| `RateLimit.Limiter.IncrementCounter` | kigali-freight-router/middleware/rateLimit.js:25-33 | Counts the request in the key's window, opening a new one strictly after the old one ended; other keys are untouched. |
| `RateLimit.Limiter.RateLimit` | kigali-freight-router/middleware/rateLimit.js:51-90 | Refuses exactly when the count is over the limit, with the seconds left rounded up; a skipped request is not counted. |
| `RateLimit.AtMostTwiceTheLimit` | kigali-freight-router/middleware/rateLimit.js:25-33 | Any closed stretch of time as long as the window lets through at most twice the limit, less one. |
| `RateLimit.BoundIsReached` | kigali-freight-router/middleware/rateLimit.js:25-33 | For every limit and window a request sequence reaches that bound. |
| `RateLimit.AdmittedAgainExactly` | kigali-freight-router/middleware/rateLimit.js:70-81 | After a refusal the key's next request gets through if and only if it comes after the window ended. |
| `RateLimit.WaitingLongerThanRetryAfter` | kigali-freight-router/middleware/rateLimit.js:73-75 | Waiting longer than Retry-After gets through; waiting exactly that long does if and only if the time left was not whole seconds. |
| `RouteSequencing.PickNext` | kigali-freight-router/utils/routeSequencing.js:51-67 | The first of the nearest stops among the eligible ones, or among all when none is. |
| `RouteSequencing.SequenceStops` | kigali-freight-router/utils/routeSequencing.js:43-77 | The loop computes the greedy plan. |
| `RouteSequencing.PlanKeepsPrecedence` | kigali-freight-router/utils/routeSequencing.js:43-77 | The plan is a permutation of the stops and never puts a drop before the open pickup of its order. |
| `RouteSequencing.CargoAboardIsDeliveredLast` | kigali-freight-router/utils/routeSequencing.js:55-58 | Given open stops only, the drops of cargo already aboard come after everything else. |
| `RouteSequencing.PlanIsNearestFirst` | kigali-freight-router/utils/routeSequencing.js:43-77 | At every place in the plan stands a stop that may come there, a pickup or the drop of an order collected before, and none that may is nearer to the last known place; only where none may are all the rest compared. |
| `RouteSequencing.TiesGoToTheFirst` | kigali-freight-router/utils/routeSequencing.js:60-67 | Of several stops equally near the one given first is taken. |
| `TripRuns.RenumberNumbers` | kigali-freight-router/controllers/tripController.js:415-417 | Numbering along a list that names every stop once gives the numbers 1 to n. |
| `TripRuns.ReplannedNamesEveryStop` | kigali-freight-router/controllers/tripController.js:407-417 | The order an optimisation writes names every stop once, the closed ones first. |
| `TripRuns.OptimiseKeepsHistory` | kigali-freight-router/controllers/tripController.js:400-417 | Closed stops keep their relative order and come before everything ahead, and no delivery is put before its own collection. |
| `TripRuns.ReorderTakenExactly` | kigali-freight-router/controllers/tripController.js:446-460 | A hand-made order is taken if and only if it names every stop of the run exactly once. |
| `TripRuns.ClosedStopsNeverChange` | kigali-freight-router/controllers/tripController.js:606-616 | No step changes what a stop is for, or the status of a closed one. |
| `TripRuns.ClosingTheLastStopCompletes` | kigali-freight-router/controllers/tripController.js:672-687 | Marking a stop completes the run in the same step if and only if it closes the last open one. |
| `TripRuns.FinishedWhenDoneExactly` | kigali-freight-router/controllers/tripController.js:492-540 | Finished and nothing open stay the same thing, except exactly when a cancelled run is revived. |
| `TripRuns.NothingOpenNeverCompletes` | kigali-freight-router/controllers/tripController.js:606-616 | A run nothing is open on is never completed by any later steps. |
| `TripRuns.OverlappingReportsCompleteExactly` | kigali-freight-router/controllers/tripController.js:619-687 | Two overlapping reports complete the run if and only if they close the last two open stops and one waits for the other, because both start the run or both move the same order. |
| `TripRuns.OverlappingReportsLeaveTheRunOpen` | kigali-freight-router/controllers/tripController.js:650 | Otherwise, with the last two stops closed together, no later step completes the run. |
| `TripRuns.TripOverEveryRun` | kigali-freight-router/controllers/tripController.js:186-230 | Over every run planned from different orders: numbers are a permutation of 1 to n, a finished run has no open stop, and the first plan delivers nothing before collecting it. |
| `TripAnswers.NewTripCallsFor` | kigali-freight-router/controllers/tripController.js:183-230 | A new run holds exactly the stops its orders call for, each once and numbered: a drop where the order is delivered and, unless it is aboard, a pickup where it is collected. |
| `TripAnswers.VisitTakenExactly` | kigali-freight-router/controllers/tripController.js:581-625 | A stop report is taken if and only if the stop is there, open and the driver's, the mark is not pending, and a failure or skip has a reason. |
| `TripAnswers.VisitLeaves` | kigali-freight-router/controllers/tripController.js:625-687 | The stop bears the mark and no other changes; the run is completed when nothing is left to do, and otherwise under way if it was planned. |
| `TripAnswers.UpdateTakenExactly` | kigali-freight-router/controllers/tripController.js:481-535 | A run is changed if and only if it is not completed nor to be completed by hand, a driver named or setting off is fit, and one under way is free. |
| `TripAnswers.UpdateLeaves` | kigali-freight-router/controllers/tripController.js:535-551 | Cancelling skips exactly the stops still to be done; no other change touches a stop. |
| `TripAnswers.ReorderLeaves` | kigali-freight-router/controllers/tripController.js:446-462 | The stop at each place of a hand-made order gets that number. |
| `TripAnswers.OptimiseTakenExactly` | kigali-freight-router/controllers/tripController.js:389-400 | A run is optimised if and only if two stops are still to be done. |
| `TripAnswers.OptimiseIsNearestFirst` | kigali-freight-router/controllers/tripController.js:400-417 | The stops still to be done are numbered after the others so that each is the nearest that may come there. |
| `TripTable.Table.CreateTrip` | kigali-freight-router/controllers/tripController.js:186-230 | Stops are drafted, sequenced and numbered as the model says. |
| `TripTable.Table.OptimiseTrip` | kigali-freight-router/controllers/tripController.js:389-420 | The optimise endpoint answers and writes as the model says. |
| `TripTable.Table.ReorderTrip` | kigali-freight-router/controllers/tripController.js:437-462 | The re-sequencing endpoint answers and writes as the model says. |
| `TripTable.Table.UpdateTrip` | kigali-freight-router/controllers/tripController.js:481-551 | The run endpoint answers and writes as the model says; cancelling skips the open stops. |
| `TripTable.Table.UpdateStop` | kigali-freight-router/controllers/tripController.js:581-690 | The stop endpoint answers and writes as the model says. |
| `Onboarding.OnboardingOverEveryRun` | kigali-freight-router/controllers/driverAuthController.js:184-216 | With at most k requests overlapping, over every run: a code takes at most 4 + k wrong guesses and is accepted at most k times, an invite is redeemed at most k times, only the newest can be unused, and PIN settings stay within k for each opening. |
| `Onboarding.OneAtATime` | kigali-freight-router/controllers/driverAuthController.js:308-339 | One request at a time: one acceptance and five wrong guesses a code, one redemption an invite, PIN settings at most one more than resets, and a PIN means onboarding is complete. |
| `Onboarding.OnlyTheNewestInviteWorks` | kigali-freight-router/controllers/driverAuthController.js:254-265 | An invite code gets past its guard if and only if it is the newest one's and that one is unused and in date. |
| `Onboarding.PinsAreEarned` | kigali-freight-router/controllers/driverAuthController.js:308-339 | However requests overlap, a PIN or an onboarded account means a code was accepted and an invite redeemed. |
| `Onboarding.OverlappingVerifiesAllPass` | kigali-freight-router/controllers/driverAuthController.js:184-216 | For every k, k overlapping requests with the right code are all let in. |
| `Onboarding.WrongGuessesReachTheBound` | kigali-freight-router/controllers/driverAuthController.js:184-216 | For every k, four wrong guesses and k overlapping ones are all held against the code. |
| `Onboarding.OverlappingRedemptionsAllPass` | kigali-freight-router/controllers/driverAuthController.js:254-270 | For every k, k overlapping redemptions of one invite all pass. |
| `Onboarding.OverlappingPinsAllStick` | kigali-freight-router/controllers/driverAuthController.js:308-339 | For every k, k overlapping PIN settings all succeed without a reset. |
| `Onboarding.OverlappingPinsBothStick` | kigali-freight-router/controllers/driverAuthController.js:308-339 | Of two overlapping PIN settings the second replaces what the first set. |
| `Onboarding.CodeTakenExactly` | kigali-freight-router/controllers/driverAuthController.js:171-216 | A code is accepted if and only if it is the newest sent, unused, in date, with at most four wrong guesses, and right; it is then used up and opens a session of ten minutes, and a wrong guess is counted. |
| `Onboarding.InviteTakenExactly` | kigali-freight-router/controllers/driverAuthController.js:237-270 | An invite is redeemed if and only if the session is live, the number registered, and the code that of the newest open invite; it is then used up and opens an invited session. |
| `Onboarding.PinTakenExactly` | kigali-freight-router/controllers/driverAuthController.js:291-345 | A PIN is set if and only if the session is live, the number registered, and the session is invited before onboarding or there is no PIN after it. |
| `Onboarding.ResetLetsANewPinIn` | kigali-freight-router/controllers/adminController.js:291-305 | A reset takes away the PIN and nothing else, and an onboarded driver with a live session then sets any new one without an invite. |
| `Onboarding.SentExactly` | kigali-freight-router/controllers/adminController.js:182-270 | An invite registers the number, spends the earlier ones and lasts two days, unless the driver is onboarded; a code lasts five minutes and goes only to a registered number. |
| `Onboarding.Desk.InviteDriver` | kigali-freight-router/controllers/adminController.js:182-270 | Refused once onboarded; otherwise every older invite is spent and one new one is open. |
| `Onboarding.Desk.ResetDriverPin` | kigali-freight-router/controllers/adminController.js:291-305 | The PIN goes, onboarding stays complete. |
| `Onboarding.Desk.RequestCode` | kigali-freight-router/controllers/driverAuthController.js:101-135 | A new code for a registered number. |
| `Onboarding.Desk.VerifyOtp` | kigali-freight-router/controllers/driverAuthController.js:171-216 | Accepted exactly when the newest code is unused, in date, under its attempts and right. |
| `Onboarding.Desk.VerifyInvite` | kigali-freight-router/controllers/driverAuthController.js:237-270 | Accepted exactly when the invite check passes. |
| `Onboarding.Desk.SetPin` | kigali-freight-router/controllers/driverAuthController.js:291-345 | Accepted exactly in an open window. |
| `Documents.AnalysisOverEveryRun` | kigali-freight-router/controllers/driverDocumentController.js:107-133 | However late results arrive, a stored analysis is of the file its row holds, given that a replacement is stored later than what it replaces. |
| `Documents.SameInstantMixesAnalyses` | kigali-freight-router/controllers/driverDocumentController.js:122-126 | Two files stored at one instant: the first one's analysis lands on the second. |
| `Documents.HeldFileReplacedExactly` | kigali-freight-router/controllers/driverDocumentController.js:299-325 | A pending or approved document is replaced exactly by writing an upload that passed its check earlier. |
| `Documents.HeldFileNeverChanges` | kigali-freight-router/controllers/driverDocumentController.js:257-268 | With uploads and decisions one after the other, a pending or approved file never changes. |
| `Documents.OverlappingUploadsClobber` | kigali-freight-router/controllers/driverDocumentController.js:254-325 | Two overlapping uploads of one type: the second replaces the first under review. |
| `Documents.DuplicatesExactly` | kigali-freight-router/controllers/driverDocumentController.js:279-297 | One file is held under two types exactly by approving a rejected document whose file was handed in as another. |
| `Documents.UploadTakenExactly` | kigali-freight-router/controllers/driverDocumentController.js:254-297 | An upload is taken if and only if its type has no document under review or approved, and no other type has one of the same file. |
| `Documents.UploadLeaves` | kigali-freight-router/controllers/driverDocumentController.js:299-325 | The document is under review with the new file, no expiry and no analysis, and an analysis of it is under way. |
| `Documents.DecidedExactly` | kigali-freight-router/controllers/driverDocumentController.js:432-520 | A decision on a document that is there: an approval keeps the expiry it is given, which must be ahead, a rejection leaves none; nothing else changes, and otherwise nothing at all. |
| `Documents.Desk.UploadDocument` | kigali-freight-router/controllers/driverDocumentController.js:215-325 | Refused when held or a duplicate; otherwise the row is pending with the new file and nothing of the old. |
| `Documents.Desk.AnalyzeAndStore` | kigali-freight-router/controllers/driverDocumentController.js:107-133 | Stored exactly when the row still bears the upload time. |
| `Documents.Desk.UpdateDocumentStatus` | kigali-freight-router/controllers/driverDocumentController.js:432-520 | Refused for an expiry already past or a missing row; otherwise decided, with the expiry kept only on approval. |
| `Verification.CountingIsHavingEach` | kigali-freight-router/services/driverVerificationService.js:77-102 | With one row a type, the count of good rows reaches the number of types if and only if there is a good one of each. |
| `Verification.ThreeRulesAgree` | kigali-freight-router/controllers/adminController.js:39-91 | With unique keys and at most one active vehicle, the count, the for-all rule and the driver's checklist agree. |
| `Verification.VerifiedMeans` | kigali-freight-router/services/driverVerificationService.js:77-102 | Every paper good means: identity card and licence of the driver, and registration, insurance and roadworthiness on active vehicles of theirs, each approved and not past its expiry. |
| `Verification.PooledCountExactly` | kigali-freight-router/services/driverVerificationService.js:77-102 | For any number of active vehicles: counted as verified if and only if the driver's own papers are good and the good registrations, insurances and roadworthiness certificates of all active vehicles together number three; every paper good if and only if none of the three numbers is zero. |
| `Verification.CountIsRightExactly` | kigali-freight-router/services/driverVerificationService.js:77-102 | Counted and every paper good at once if and only if each type is good on exactly one active vehicle. |
| `Verification.TwoVehiclesPoolTheirPapers` | kigali-freight-router/controllers/adminController.js:70-80 | Two active vehicles are counted in one pool. |
| `Verification.TwoGoodVehiclesNeverVerify` | kigali-freight-router/services/driverVerificationService.js:85-102 | A driver of two roadworthy vehicles is never verified. |
| `Verification.TwoLackingVehiclesVerify` | kigali-freight-router/services/driverVerificationService.js:85-102 | A driver whose two vehicles both lack a document can count as verified. |
| `Batching.GetBatchedOrders` | kigali-freight-router/controllers/orderController.js:1636-1664 | The loops compute the batches and their weights. |
| `Batching.EveryOrderInOneBatch` | kigali-freight-router/controllers/orderController.js:1636-1664 | Every pending order is in exactly one batch and the total weight is that of the orders. |
| `Batching.BatchesFollowTheirHeads` | kigali-freight-router/controllers/orderController.js:1639-1655 | Every other order of a batch pairs with its head and comes after it in the scan; no head pairs from an earlier head. |
| `Batching.HeadsAreIndependent` | kigali-freight-router/controllers/orderController.js:1636-1655 | Scanned in the order of ids, no two heads pair. |
| `Batching.ScanOrderMatters` | kigali-freight-router/controllers/orderController.js:1610-1625 | Scanned the other way, two orders that pair head a batch each. |
| `Cash.GroupsAddUp` | kigali-freight-router/controllers/paymentController.js:318-333 | Grouping by trimmed, capitalised currency loses nothing and counts nothing twice. |
| `Cash.KeyExactly` | kigali-freight-router/controllers/paymentController.js:318-333 | The group of a job is what is written between the blanks of its currency, in capitals; a job without one is a group of its own. |
| `Cash.HeadlineExactly` | kigali-freight-driver/lib/cash.ts:97-158 | Through the server's grouping: clear, owing and incomplete if and only if the jobs say so, owing with exactly the sum, and paying is offered exactly when owing. |
| `Cash.ClearMeansSquare` | kigali-freight-driver/lib/cash.ts:136-158 | A driver is told they are square if and only if every unsettled fee is known to be nothing and all jobs are in one currency. |
| `CashSettlement.RequestedExactly` | kigali-freight-router/services/paymentService.js:695-760 | The server asks for a payment exactly when something is owing in one currency that is written down. |
| `CashSettlement.PaymentRequestedExactly` | kigali-freight-router/services/paymentService.js:695-760 | For any amount: a payment is asked for if and only if the jobs owed have exactly one written currency, the amount, everything unless another is given, is more than nothing and at most a hundredth over what is owed, the number can take it and none is out; it is asked for in that amount and currency. |
| `CashSettlement.DebtGrows` | kigali-freight-router/services/paymentService.js:695-700 | A further job adds its fee to the debt unless it is settled or its fee unknown. |
| `CashSettlement.AppAndServerDisagreeExactly` | kigali-freight-driver/lib/cash.ts:172-199 | Where the app refuses what the server would take and the other way round, exactly. |
| `CashSettlement.SettledDollarsBlockFrancs` | kigali-freight-driver/lib/cash.ts:178-184 | An instance: a settled dollar job stops a franc payment. |
| `CashSettlement.ClearJobs` | kigali-freight-router/services/paymentService.js:835-845 | The loop clears the oldest jobs a payment covers and says what is left of it. |
| `CashSettlement.CoveredIsLongest` | kigali-freight-router/services/paymentService.js:838-843 | What is cleared is the longest run of oldest jobs the payment covers. |
| `CashSettlement.SplittingNeverHelps` | kigali-freight-router/services/paymentService.js:838-843 | Paying everything clears everything; paying in two goes never clears more than in one. |
| `CashSettlement.PartPaymentsClearNothing` | kigali-freight-router/services/paymentService.js:792-799 | Payments that each fall short of the oldest job leave the debt as it was, however much they come to. |
| `CashSettlement.NeverClearsMoreThanPaid` | kigali-freight-router/services/paymentService.js:838-843 | The fees cleared never exceed what was paid. |
| `CashRecovery.StepRecoversOnceExactly` | kigali-freight-router/services/paymentService.js:835-852 | Across payouts, dispatch and the driver's own payment, a commission is recovered a second time if and only if a payment marks a job that was settled after it was chosen. |
| `CashRecovery.StepKeepsClaimsExactly` | kigali-freight-router/services/paymentService.js:343-376 | Jobs that a payment has chosen stay owing until it marks them if and only if nothing else settles one of them. |
| `CashRecovery.RecoveredOnceOverEveryRun` | kigali-freight-router/services/paymentService.js:632-652 | Over every run in which that never happens, each commission is recovered at most once. |
| `CashRecovery.NettedWhilePaying` | kigali-freight-router/services/paymentService.js:835-852 | A run in which a payout keeps back what the driver is paying, and both count. |
| `Migrations.Runner.Migrate` | kigali-freight-router/bin/migrate.js:202-216 | Applies what is missing in list order, each with its log row, up to the first failure. |
| `Migrations.Runner.MigrateDown` | kigali-freight-router/bin/migrate-down.js:33-69 | Undoes the newest rows one by one up to the first that cannot be. |
| `Migrations.ApplyAllIs` | kigali-freight-router/bin/migrate.js:129-148 | A run appends a prefix of what was missing, all of it unless a script failed, and the schema is what the log says. |
| `Migrations.SecondRunChangesNothing` | kigali-freight-router/bin/migrate.js:207-214 | Once a run has succeeded, running again changes nothing. |
| `Migrations.FailedRunResumes` | kigali-freight-router/bin/migrate.js:207-214 | After a failure exactly the rest is missing, from the script that failed on. |
| `Migrations.RollbackRestores` | kigali-freight-router/bin/migrate-down.js:25-69 | Rolling back k steps restores the schema from before the last k rows, or stops at the newest without a down script, given each down script inverts its migration and the rows undone were run here. |
| `Migrations.UpThenDownIsNothing` | kigali-freight-router/bin/migrate-down.js:55-69 | Migrating up and rolling back as many steps returns the database as it was. |
| `Migrations.MarkedMigrationIsUndoneAnyway` | kigali-freight-router/bin/migrate-down.js:33-47 | A row that was only marked as applied is undone all the same, and the schema then is what the log says exactly when its down script changes nothing. |
| `Migrations.BootstrapThenRollback` | kigali-freight-router/bin/migrate-down.js:25-31 | After bootstrapping an existing deployment and failing on the first migration, one step back runs the baseline's down script if and only if the database sorts the baseline's name after the older one's; otherwise it refuses and nothing changes. |

## Left out

- OrderMoney.SettlementOverEveryRun: leaves out forced changes, repricing over a wait or an amount in motion, a handover at another price under one, payments that overlap, and requests given up while they can still take money, because the equation can fail after each of them; `OrderMoney.StepKeepsBooksExactly` is the exact condition.
- OrderMoney.TakingsOverEveryRun: leaves out giving up on a request at stake, because money is then taken that no order shows; `OrderMoney.StepKeepsTakingsExactly` is the exact condition.
- OrderOffers.DeclinersAreLeftAlone: leaves out transactions that go round the check and declines between a check and its write, because the driver is then offered the job again; `OrderOffers.StepReoffersExactly` and `OrderOffers.WriteReoffersExactly` are the exact conditions.
- CashRecovery.RecoveredOnceOverEveryRun: leaves out settling a job that an unfinished payment has chosen, because it can then be recovered twice; `CashRecovery.StepRecoversOnceExactly` is the exact condition.
- OrderMoney.SplitConservedEveryRun: leaves out repricing an order that carries an adjustment, because the split is then false; `OrderMoney.StepKeepsSplitExactly` is the exact condition.
- OfflineLedger.NothingVanishesUninterrupted: leaves out writes over a changed list and ends of the process in the middle, because they lose actions; `OfflineLedger.OverwritesExactly` is the exact condition.
- OfflineSerial.CopiesOverEveryRun: leaves out operations that overlap, because they strand actions without a photo; `OfflineLedger.CopyKeptExactly` is the exact condition.
- Which statements of one payment fail half-way; every statement that runs is an event, and one that never comes is a run that ends.
- OrderCapacity.CapacityHoldsOverEveryRun: leaves out bringing back an order that no longer fits, because the limit is then exceeded; `OrderCapacity.StepKeepsCapacityIff` is the exact condition. Editing a vehicle's limit is not an event.
- Session.StoredTokenWorksExactly: leaves out sign-in, sign-out and storage reads during a refresh; what each of them then does is proved separately.
- Documents.AnalysisOverEveryRun: takes replacements of one document to be stored at later times; `Documents.SameInstantMixesAnalyses` shows what happens otherwise.
- Payouts to drivers, but for what is kept back of them; payments are modelled as events on values, not as methods.
- A request settled in another currency than it was raised in; it fails in the code like one settled for another sum.
- Cash that changes hands and is not recorded, or recorded and refused.
- The formula behind a quote, a waiting charge or a return-leg credit: any amount is allowed.
- How a delivery code is checked and how its attempts are counted: the proof is a parameter.
- Letters other than A to Z keep their case when driver names are compared.
- Which nulls a price column may hold: a missing detention, credit or adjustment reads as zero, as the code does.
- Writes of the app's storage that fail, and reads that do not parse (they count as an empty list).
- Deleting a photo that fails quietly, which leaves a file nothing refers to.
- `clearOfflineQueue`, an explicit wipe.
- Access tokens, roles and the four separate storage keys of a session; a pair is one number and is stored in one step. Sessions of other devices.
- Session.TokensBelongToTheDriverShown: leaves out the process ending while a sign-in writes its four keys, which can leave one driver's token under another's name.
- Deleting a driver's account, after which a refresh is refused over a token that is still live.
- The shared-store path of the limiter; a failing limiter lets requests through and is not modelled.
- The index that keeps an order off two live runs, which refuses a new run with TRIP_ORDER_ALREADY_PLANNED, and giving a vehicle to another driver.
- A file-type check that fails after a document was stored, which answers an error although the row is there.
- Distances, coordinates and planned distance of a run; any distance function is allowed.
- Which drivers may be given a run and who may touch a stop are parameters; the one-active-run-per-driver index is one too. The order half of a run is in `OrderTable`.
- Text messages, audit rows, sockets, push notifications and signed links.
- Password, second-factor and dispatcher accounts; the PIN login itself.
- Which file the person deciding had in front of them: a decision lands on whatever file the row holds.
- The collected and settled totals of the cash summary, grouped in the same way as what is owed.
- Money amounts that differ by less than a hundredth.
- Seeding after a migration run and the opt-in legacy baseline.
- User interface, map tiles, telemetry, hubs, geofences, saved views and the other plain create, read and update handlers.
