# Campus Assistant money engine, verified

This project models how the Campus Assistant backend moves money and what hangs on it, and proves what its
code promises: the double-entry ledger, bKash payments of subscriptions and of marketplace orders, stock,
seller earnings and payouts, refunds, invoices, coupons, subscription periods, feature metering, the seller
dashboard, the admin's payment list and the comment forest.

`dafny verify dfyconfig.toml` checks everything.

## How it is built

The database is a value. Every `Transaction(...)` body, every unlocked write and everything bKash does is one
atomic step from a value to a value (`MarketSteps`, `TillSteps`). `Engine.After` is one step of anyone, with an
arbitrary (possibly stale) choice of row, answer and clock, and with the database free to abort it;
`Engine.RunFrom` is any sequence of such steps, so execute, cancel, reconcile, refund, payout and delivery calls
interleave freely. `MarketLaws` and `TillLaws` say what each step keeps, `Engine` lifts that to every run, and
`ClosedForms`, `Safety`, `Payouts`, `Earnings`, `Stock`, `OncePaid`, `Evidence`, `CouponLaws`, `Receipts` and
`SaleRefunds` draw the consequences; `Scenarios` holds runs with surprising ends.

`Billing`, `Marketplace`, `Payments`, `SubscriptionTable` and `Entitlements` hold classes whose methods update
tables in place the way the services do (loops, conditional updates, writes that are rolled back); each method is
proved equal to the step or steps it performs, so everything proved of runs is true of them. What each such step
answers and leaves is said from the tables' fields in `OrderAnswers`, `SaleAnswers`, `Purchases`, `Accounts` and
`Jobs`. The grouping loop of a release (`Release`), the dashboard's loop (`Insights`), the insertion sort (`Paging`)
and the pointer-linking loops of the comment forest (`Comments`) are methods proved against a specification of what
they mean.

| file | part of the system |
|---|---|
| Sums, Ledger | finite sums; journals, posting, reversing, the accounting identity |
| Commission, Release | commission rounding; one release journal from many lines and sellers |
| Invoices, Coupons | numbering and issuing; quotes and the use counter |
| Shop, MarketSteps, MarketLaws, Marketplace | orders, stock, order payments, delivery, payouts, order refunds |
| Subscriptions, Accounts, SubscriptionTable | periods, grace, Pro flag, sweep |
| TillSteps, TillLaws, CouponLaws, Payments | the subscription payment protocol and the coupon counter |
| OrderAnswers, SaleAnswers, Purchases, Jobs | what each call and job answers, and what it leaves |
| Engine, ClosedForms, Safety, Payouts, Earnings, Stock, OncePaid, Evidence, Receipts, SaleRefunds, Scenarios | whole runs |
| Insights, Paging, Comments, AccessGrants, Entitlements | dashboard, payment list, comment forest, offers, metering |

## What turned out false of the code

* **A refunded payment can be granted again.** `fulfil` stops only at `completed`
  (internal/service/payment_service.go:346-350). `OncePaid.StepPaysOnceIff` proves that exactly-once survives a step
  if and only if the step is not a fulfilment of a payment that was refunded after being granted;
  `OncePaid.LateAnswerRegrants` shows that a late repeat of the confirming answer does it from every state with
  a completed payment: a second subscription, no revenue. The money theorems hold even then, and so do the cap of a
  coupon and the guard of its counter, which ends one below the uses held (`CouponLaws.CouponCounterIsUses`,
  `Scenarios.CouponCountsOneShort`).
* **A payment refunded from review can still be granted**, and then the refunded money stays booked as revenue.
  `SaleRefunds.SaleRefundIsForeverIff` says when a refund is for good, `SaleRefunds.RefundedReviewIsBooked` how it is
  not.
* **Refunding an order that was already cancelled restocks it again** (internal/service/refund_service.go:180-184).
  `Stock.StepMovesUnits` says exactly which refunds do and by how much; `Stock.LateRefundRestocksTwice` gives the
  sequence of events.
* **A sweep can take Pro from a user who has just renewed.** `ExpireSubscriptions` picks users and clears them in
  two statements (internal/repository/postgres/subscription_repository.go:155-177). A clear keeps the Pro flag and the
  newest row in agreement if and only if the user is not Pro again by then (`Subscriptions.EventKeepsAgreementIff`,
  `Subscriptions.LateSweepTakesProAway`), and it loses paid days if and only if some are left
  (`Subscriptions.ClearKeepsCoverIff`, `Subscriptions.LostDays`).
* **A directly created row can disagree with the Pro flag**: one with no end date but a grace date, or one that is
  born refunded (subscription_repository.go:50-85); the same lemma says exactly which.
* **A negative price or delivery charge is accepted at checkout and may be refused later.** Both are stored
  unchecked (internal/delivery/http/handler/product_handler.go:79,
  internal/delivery/http/handler/merchant_handler.go:370-413), and `Checkout` validates neither
  (internal/delivery/http/handler/order_handler.go:185-290). `MarketLaws.DeliverKeepsInv` says exactly which deliveries
  the ledger refuses, by each seller's share (`Release.ReleaseSoundIff`) and the total: some negative prices are
  released and others never are (`Release.NegativePriceCases`, `MarketLaws.NegativePriceIsRefused`).
  `MarketLaws.RecordFacts` and `MarketLaws.SettleKeepsInv` do the same for payments.
* **Escrow can fall below zero**, exactly when negative delivery charges of released, unrefunded orders outweigh what is
  held (`Safety.EscrowBalance`); `Scenarios.EscrowFallsBelowZero` is a run that gets there.
* **A discount can raise a price.** Coupon values are stored unchecked
  (internal/delivery/http/handler/coupon_handler.go:22-48, 114-115). `Coupons.QuotesStayInRange` says exactly when a
  quote is above the price, and `Coupons.NegativeValueRaises` gives the input: value -50.
* **An unpaid order marked delivered is booked as paid**: a seller may move a waiting bKash order straight to delivered
  (internal/service/order_service.go:54-64), and the delivery backfills a payment bKash never took
  (internal/service/billing_service.go:343-378). `Evidence.BookedWasPaidIff` proves it is the only way to book
  money without a confirmation, `Evidence.DeliveryBooksIff` when, `Evidence.UnpaidDeliveryIsBooked` that it happens.
* **An expiry can cancel an order that has been paid**: picking and cancelling are separate, and cancelling stops only
  at a delivered order (`Scenarios.LateExpiryCancelsIff`, `Scenarios.LateExpiryCancelsPaid`).
* **In the grace week a plan's own list is ignored**: the user is Pro and no row runs, so every default feature is
  unlimited, capped ones included (`Entitlements.GraceLiftsLimits`, `Entitlements.GraceIsWithoutPlan`).
* **The dashboard's net can be far from the ledger's credit**: on a line of negative gross the clamp of the commission
  bites. `Commission.CommissionCloseIff` says exactly when, `Insights.NetRevenueNearLedger` what remains close, and
  `Insights.NegativeLineStrays` gives two lines that are released together (`Release.NegativePriceCases`) and shown 10
  taka apart.
* **The dashboard's daily points do not add up to its gross revenue** when something was sold on the earliest day the
  query reaches: `Insights.SeriesMissesEarliestDay` gives the difference.
* A reported amount of -1 counts as full payment of a free plan, because conversion drops the fraction towards
  zero (`Shop.NothingIsPaidBy`).
* The parent relation of comments need not be acyclic for the search to end: comments on a cycle are never
  reached from a root (`Comments.ForestHasChainsOnce`).

## Model

| member | source | states |
|---|---|---|
| Ledger.PostKeepsLedger | internal/service/billing_service.go:92-133 | posting any lines keeps every journal balanced and every key unique; a first post of sound lines moves each account by its lines; refused lines or a repeated key change nothing |
| Ledger.ReverseFacts | internal/service/refund_service.go:26-45 | reversing a source's journals is never refused, keeps the ledger sound and adds exactly the refund keys of what was posted |
| Ledger.AccountingIdentity | internal/service/billing_service.go:615-650 | over any balanced journals, gateway money is revenue plus what is owed, pending, paid out and in escrow |
| Billing.BillingTables.PostJournal | internal/service/billing_service.go:92-133 | the validating and filtering loops write exactly the journal, or answer why not |
| Billing.BillingTables.ReverseJournals | internal/service/refund_service.go:26-45 | the loop over found journals posts every swap, and reports the first one refused |
| Billing.BillingTables.NextInvoiceNumber | internal/service/billing_service.go:175-193 | the upsert takes the next number of the year and prints it |
| Billing.BillingTables.IssueInvoice | internal/service/billing_service.go:196-246 | a repeat for a source consumes no number; otherwise one invoice with the next number |
| Billing.BillingTables.IssueOrderInvoice | internal/service/billing_service.go:297-317 | lines and subtotal are those of the order's items, without the delivery charge |
| Billing.BillingTables.RecordOrderPayment | internal/service/billing_service.go:284-295 | buyer money into escrow and the invoice, or nothing when the ledger refuses |
| Billing.BillingTables.RecordSubscriptionPayment | internal/service/billing_service.go:252-279 | revenue and an invoice showing the discount, or nothing |
| Billing.BillingTables.Summarise | internal/service/billing_service.go:615-650 | the single pass over grouped rows finds every account's balance and the sum over sellers, and the figures satisfy the identity |
| Commission.CommissionCloseIff | internal/service/billing_service.go:321-330 | for any gross and rate the clamped, rounded commission is within half a taka of the exact one exactly when the exact one lies in range; what it is on a negative gross |
| Commission.CommissionIsClose | internal/service/billing_service.go:321-330 | for a rate in [0, 100] that is exactly when the gross is not negative, or the exact commission is -0.5 |
| Release.GroupShares | internal/service/billing_service.go:380-394 | one pass groups gross and commission by seller, in order of first appearance |
| Release.BuildReleaseLines | internal/service/billing_service.go:380-428 | the loops build the specified lines, sellers sorted, escrow last |
| Release.ReleaseMovesPerLineSums | internal/service/billing_service.go:380-428 | the grouped lines move every account by the direct per-item sums, for any items, rates and mix of sellers |
| Release.SellersInOrder | internal/service/billing_service.go:395-403 | each seller of the lines has one place, in ascending order |
| Release.ShareBounds | internal/service/billing_service.go:321-330 | each seller's commission lies between zero and the seller's gross |
| Release.ReleaseSoundIff | internal/service/billing_service.go:343-430 | for any prices, quantities, rates and sellers the release journal balances, and it is accepted exactly when each seller's share is: a platform share paid by bKash with gross not negative, a bKash share with commission between zero and gross, a cash share with commission not negative |
| Release.NegativePriceCases | internal/service/billing_service.go:380-428 | a line of -100 alone is refused for bKash, and accepted for cash or beside a line of 500 of the same seller |
| Invoices.NumbersPrintApart | internal/service/billing_service.go:193-193 | distinct (year, number) pairs print to distinct strings |
| Invoices.IssueKeepsInvoices | internal/service/billing_service.go:175-246 | issuing keeps each year's numbers 1..Last without gap, one invoice per source, and every invoice adding up |
| Invoices.NumbersAreUnique | internal/service/billing_service.go:175-246 | no two invoices of any years carry the same printed number |
| Coupons.QuotesStayInRange | internal/service/payment_service.go:106-138 | for any price and value, negative ones included: exactly when a quote is negative and exactly when it is above the price; a percentage is rounded by less than one taka, and full discounts are free |
| Coupons.NegativeValueRaises | internal/delivery/http/handler/coupon_handler.go:22-48 | a coupon of -50, which may be stored, turns 500 into 750 or 550 |
| Coupons.QuoteAnswers | internal/service/payment_service.go:106-124 | a coupon gives a price if and only if it is active, not past its end, under its cap, at or above its minimum and for this plan or any; each refusal answers for the first of these that fails |
| Coupons.ExpiryIsForGood | internal/service/payment_service.go:110-112 | once expired a coupon stays expired, and a price it gives later it gave before |
| Coupons.QuoteTakesOff | internal/service/payment_service.go:125-138 | what each kind of coupon takes off, to the taka |
| Shop.PaidAmount | internal/service/gateway.go:28-37 | which reports are read as which amount: within half a taka of a positive one, and from -1.5 up for zero |
| Shop.NothingIsPaidBy | internal/service/gateway.go:28-37 | a report pays a free plan exactly if it lies between -1.5 and 0.5; -1 does |
| Shop.ChainsMoveForward | internal/service/order_service.go:54-64 | any chain of allowed moves is itself an allowed move, never repeats, has at most five statuses and stops at delivered or cancelled |
| OrderAnswers.TransitionTable | internal/service/order_service.go:40-64 | the status table itself: forward along the five stages, to cancelled from all but the last, and nowhere from delivered or cancelled |
| Shop.FitsIffDemandCovered | internal/service/order_service.go:94-114 | the line-by-line conditional updates accept a cart exactly when each product is on sale with stock for all its lines together |
| Shop.FitKeepsStockNonNegative | internal/service/order_service.go:94-114 | an accepted cart, repeated products included, leaves no stock negative |
| OrderAnswers.PlaceAnswers | internal/service/order_service.go:94-122 | when an order is placed, what leaves the shelf, and otherwise which line is named, with what is left for it |
| MarketLaws.PlaceKeepsInv | internal/service/order_service.go:94-122 | placing an order keeps every marketplace invariant |
| MarketLaws.TransitionKeepsInv | internal/service/order_service.go:182-210 | so does every status change |
| OrderAnswers.TransitionAnswers | internal/service/order_service.go:182-210 | what a status change answers, when, and what it leaves, the restock of a cancelled order included |
| OrderAnswers.MoveBooks | internal/service/order_service.go:205-210 | a change to delivered books the earnings if and only if the ledger takes them; no other change moves money |
| MarketLaws.CancelKeepsInv | internal/service/order_service.go:217-250 | and a buyer's cancellation |
| OrderAnswers.CancelAnswers | internal/service/order_service.go:213-242 | a buyer's cancellation changes something if and only if the order is the buyer's own and waits for payment, or is a cash order not on its way; then it is cancelled and restocked, and else the answer says why |
| OrderAnswers.CancelledUnpaid | internal/service/order_service.go:213-216 | no buyer cancels an order whose money has moved |
| MarketLaws.RecordFacts | internal/service/billing_service.go:284-295 | booking an order's payment is refused exactly for a negative total, and otherwise adds its key and invoice only |
| MarketLaws.SettleKeepsInv | internal/service/marketplace_payment_service.go:169-226 | fulfilment keeps every invariant, and exactly when the ledger refuses it: a matching answer for a negative amount |
| OrderAnswers.OpenAnswers | internal/service/marketplace_payment_service.go:100-122 | the row that opening a payment writes |
| OrderAnswers.SettleOrderAnswers | internal/service/marketplace_payment_service.go:169-226 | exactly when an order's payment completes, is flagged or is refused, and all that each leaves |
| OrderAnswers.CloseOrderAnswers | internal/service/marketplace_payment_service.go:261-268 | closing ends an open row only, and touches nothing else |
| MarketLaws.DeliverKeepsInv | internal/service/billing_service.go:343-430 | delivery keeps every invariant; a delivered order is released by the first call if and only if each seller's share and the total to book are ones the ledger takes; releasing again changes nothing |
| OrderAnswers.DeliverAnswers | internal/service/billing_service.go:343-362 | which reply a delivery gives when, and that a refused one leaves nothing |
| MarketLaws.NegativePriceIsRefused | internal/service/billing_service.go:343-430 | a delivered bKash order of one line at -100 is refused in every state |
| MarketLaws.RequestIsBeginThenCommit | internal/service/billing_service.go:461-502 | a payout request is its locked balance check and its write, and the write is never refused |
| OrderAnswers.PayoutAnswers | internal/service/billing_service.go:461-502 | a payout is granted if and only if it is at least 500, the seller is approved, no platform seller, has a payout account, and the balance covers it; each refusal answers for the first of these that fails |
| MarketLaws.SettlePayoutKeepsInv | internal/service/billing_service.go:506-540 | settling a payout keeps every invariant and is never refused by the ledger |
| OrderAnswers.SettlePayoutAnswers | internal/service/billing_service.go:506-540 | what settling a payout answers, when, and that it changes that row only |
| MarketLaws.RefundKeepsInv | internal/service/refund_service.go:146-204 | an order refund keeps every invariant, posts for that order only, and its reversal is never refused |
| OrderAnswers.RefundOrderAnswers | internal/service/refund_service.go:146-204 | what an order refund answers, when, and what it leaves: order cancelled, newest settled payment refunded, invoice void, units back unless delivered |
| Marketplace.MarketTables.PlaceOrder | internal/service/order_service.go:94-122 | the loop of conditional updates with roll-back takes all lines or changes nothing, and names the line that fell short |
| Marketplace.MarketTables.RestockOrder | internal/service/order_service.go:126-137 | the loop puts every line's units back |
| Marketplace.MarketTables.Transition | internal/service/order_service.go:182-210 | one status change, with restock on cancellation and earnings booked after delivery |
| Marketplace.MarketTables.CancelByBuyer | internal/service/order_service.go:217-250 | who may cancel what and when, and the restock |
| Marketplace.MarketTables.ExpireUnpaid | internal/service/order_service.go:142-165 | picks abandoned orders, then cancels each in a transaction of its own; with nothing in between it cancels all it picked |
| Marketplace.CancelEachFacts | internal/service/order_service.go:142-165 | undisturbed, exactly the picked orders end cancelled and no money moves |
| Jobs.ExpiryCancelsDeserted | internal/service/order_service.go:142-165 | undisturbed, the job cancels orders that wait longer than the age and have no payment completed, under review or opened in the last hour, all of them below its batch, and no others |
| Jobs.ExpiryRestocks | internal/service/order_service.go:142-165 | and their units are back on the shelf |
| Scenarios.LateExpiryCancelsIff | internal/service/order_service.go:142-165 | whatever happens between picking and cancelling, the order ends cancelled if and only if it was not delivered meanwhile |
| Scenarios.LateExpiryCancelsPaid | internal/service/order_service.go:156-158 | an order that is paid meanwhile is cancelled all the same, and its total stays in escrow |
| Marketplace.MarketTables.OnOrderDelivered | internal/service/billing_service.go:343-430 | the whole delivery transaction, back-filled payment and roll-back included, is the specified step |
| Marketplace.MarketTables.ReleaseDeliveredOrders | internal/service/billing_service.go:436-454 | the sweep delivers each picked order and counts exactly the bookable ones |
| Marketplace.SweepReleasesAll | internal/service/billing_service.go:436-454 | a sweep below its limit leaves an order unreleased if and only if the ledger refuses it |
| Jobs.SweepBooksDelivered | internal/service/billing_service.go:436-454 | the sweep picks delivered, unbooked orders, books no others, and below its limit leaves none that the ledger takes |
| MarketLaws.SellableIsBookable | internal/service/billing_service.go:343-430 | an order with no negative price, quantity or total is never refused |
| Marketplace.MarketTables.CreatePayment | internal/service/marketplace_payment_service.go:79-122 | a session is recorded exactly for the buyer's own unpaid bKash order |
| Marketplace.MarketTables.ExecutePayment | internal/service/marketplace_payment_service.go:127-165 | execute, then the status query, decide between paid, failed and unknown |
| OrderAnswers.ExecuteOrderAnswers | internal/service/marketplace_payment_service.go:127-165 | which pair of answers leaves a payment alone, closes it as failed or fulfils it, and whose payment it may be |
| Marketplace.MarketTables.Fulfil | internal/service/marketplace_payment_service.go:169-226 | order, payment row, ledger and invoice together or not at all; flags survive |
| Marketplace.MarketTables.ReconcilePending | internal/service/marketplace_payment_service.go:273-307 | the pass over stale rows and its counters |
| Marketplace.ReconcileDecides | internal/service/marketplace_payment_service.go:273-307 | after a pass every picked row, of any amount, has exactly the status that bKash's answer and its order call for: of the confirmed ones the first of a waiting order completes, the others are flagged; no other row is touched |
| Jobs.PassTouchesOldRows | internal/service/marketplace_payment_service.go:273-307 | a pass leaves rows alone that are not open long enough and ends the others as bKash answers, all of them below its batch |
| Jobs.ReportMatchesRows | internal/service/marketplace_payment_service.go:273-307 | its report counts the rows it leaves: completed, abandoned, and unanswered or confirmed in vain |
| Marketplace.MarketTables.RequestPayout | internal/service/billing_service.go:461-502 | every check, the payout row and its journal, with roll-back |
| Marketplace.MarketTables.SettlePayout | internal/service/billing_service.go:506-540 | only a requested payout is settled, to cash-out or back to the seller |
| Marketplace.MarketTables.RefundOrder | internal/service/refund_service.go:146-204 | the whole refund, undone completely when the refund row already exists |
| Subscriptions.EventKeepsAgreementIff | internal/repository/postgres/subscription_repository.go:50-208 | a grant, creation, sweep statement or override keeps "pro" equal to "newest row active or in grace" at all later instants, exactly when it is timely and coherent |
| Subscriptions.ProMeansRowRunning | internal/domain/user.go:96-102 | that agreement at every instant after every such run |
| Subscriptions.LateSweepTakesProAway | internal/repository/postgres/subscription_repository.go:155-177 | a renewal between the sweep's two statements is lost |
| Subscriptions.ClearKeepsCoverIff | internal/repository/postgres/subscription_repository.go:155-177 | a late clear leaves stacking intact if and only if the user it clears has no paid days left; the grace week does not count |
| Subscriptions.LostDays | internal/service/payment_service.go:492-505 | what a clear with paid days left costs: the next renewal ends earlier by just those days, or has an end at all |
| Subscriptions.RowsFollowPurchases | internal/service/payment_service.go:443-505 | after any run of grants and sweeps that clear no paid days the newest row ends where stacking the purchases says: no grace day is counted, no paid day lost |
| Subscriptions.UndisturbedIsTimely | internal/repository/postgres/subscription_repository.go:155-177 | a sweep with nothing between its statements is timely, in any run of any events |
| Subscriptions.UndisturbedKeepsDays | internal/repository/postgres/subscription_repository.go:155-177 | and among grants it clears no paid days, so stacking holds |
| Subscriptions.LifetimeIsForever | internal/service/payment_service.go:492-505 | over the same runs, from the first lifetime grant on every end is "never" and Pro is never lost |
| Subscriptions.PurchasesDecideEnd | internal/service/payment_service.go:443-505 | the newest row's end depends on the purchases alone |
| Subscriptions.EarlyRenewalsAddUp | internal/service/payment_service.go:492-505 | renewing while covered ends at the first start plus all days bought |
| Subscriptions.RowsAreKept | internal/service/payment_service.go:466-481 | grants and sweeps never rewrite an earlier row |
| Subscriptions.RecomputeMeansRunning | internal/service/refund_service.go:50-70 | after a recompute a user is Pro as long as, and only as long as, some unrefunded row of that moment runs |
| Accounts.StatusTimeline | internal/domain/subscription.go:62-78 | a row is active until its end, a week in grace and then expired; active for good without an end, refunded from its refund on |
| Accounts.CreateWrites | internal/repository/postgres/subscription_repository.go:50-85 | what a directly created row stores and how long it makes its user Pro |
| Accounts.SweepOnlyTidies | internal/repository/postgres/subscription_repository.go:155-177 | an undisturbed sweep takes the flag of exactly the users whose Pro ran out, and changes no row and nobody's Pro status |
| Accounts.OverrideIsExact | internal/repository/postgres/subscription_repository.go:179-208 | an override gives the newest row this end with no grace: the user is Pro until then and not longer |
| Purchases.PaymentBuysItsPlan | internal/service/payment_service.go:346-418 | a payment that completes gives its user one row of the plan it was for, stacked on what is covered, with a week of grace; no other row or user changes |
| Purchases.SettleAnswers | internal/service/payment_service.go:332-418 | which reply fulfilment gives when; only a completing payment, or one with an answer for another amount, changes |
| Purchases.NewestEndIsWhatWasBought | internal/service/payment_service.go:363-375 | however everything interleaves, a user's newest subscription ends where stacking the plans of the payments granted to that user says |
| Purchases.RefundEndsSubscription | internal/service/refund_service.go:109-119 | a refund marks the payment's own row and nothing else, and from then on the user is Pro just as long as some other unrefunded row runs |
| Purchases.EndedForever | internal/service/refund_service.go:109-119 | a refunded row stays refunded in all later runs |
| SubscriptionTable.SubscriptionTable.GrantSubscription | internal/service/payment_service.go:443-489 | row, grace date and Pro fields of one grant |
| SubscriptionTable.SubscriptionTable.CreateUserSubscription | internal/repository/postgres/subscription_repository.go:50-85 | a row as the caller gives it, with the standard grace if dated |
| SubscriptionTable.SubscriptionTable.ExpireSubscriptions | internal/repository/postgres/subscription_repository.go:155-177 | undisturbed, the sweep clears exactly the overdue users and counts them |
| SubscriptionTable.SubscriptionTable.AdminSetExpiry | internal/repository/postgres/subscription_repository.go:179-208 | overwrites the newest row and the Pro fields, or reports no row |
| SubscriptionTable.SubscriptionTable.RecomputePro | internal/service/refund_service.go:50-70 | the loop finds lifetime or the latest end among running rows |
| TillLaws.SettleKeepsTillIff | internal/service/payment_service.go:332-418 | fulfilment on a genuine answer keeps the invariant of the subscription half if and only if it does not reach a payment refunded after being granted |
| TillLaws.CloseKeepsTill | internal/service/payment_service.go:510-531 | closing an initiated payment keeps the invariant of the subscription half |
| TillLaws.RefundKeepsTill | internal/service/refund_service.go:86-138 | a subscription refund keeps every invariant and its reversal is never refused |
| TillLaws.SettleKeepsBooks | internal/service/payment_service.go:332-418 | the books stay sound through every fulfilment, without exception |
| Payments.CheckoutChargesQuote | internal/service/payment_service.go:168-239 | a checkout charges the quoted price, which is at most the plan's own exactly if the coupon lowers it, and holds one coupon use; a failed one leaves payments and coupons as they were |
| SaleAnswers.CheckoutOpensIff | internal/service/payment_service.go:168-251 | a checkout opens a payment if and only if plan and coupon exist, the coupon is usable, bKash gives a session and the row can be written |
| SaleAnswers.CheckoutWrites | internal/service/payment_service.go:215-251 | the payment it leaves, field by field |
| SaleAnswers.QuoteForAnswers | internal/service/payment_service.go:180-206 | the plan's price, or what the coupon makes of it |
| Payments.PaymentTables.ReserveCoupon | internal/service/payment_service.go:143-154 | one use, exactly if active and under the cap |
| Payments.PaymentTables.CreatePayment | internal/service/payment_service.go:173-251 | quote, reservation, session and row; every failure after the reservation hands it back |
| Payments.PaymentTables.ExecutePayment | internal/service/payment_service.go:259-295 | execute, then the status query, decide |
| SaleAnswers.ExecuteSaleAnswers | internal/service/payment_service.go:259-295 | which pair of answers leaves a payment alone, closes it as failed with its coupon use back, or fulfils it, and whose payment it may be |
| SaleAnswers.ExecutedStatus | internal/service/payment_service.go:259-295 | the status that success leaves, by the reported amount |
| Payments.PaymentTables.Fulfil | internal/service/payment_service.go:332-418 | subscription, coupon use, payment row, revenue and invoice together or not at all |
| Payments.PaymentTables.MarkTerminal | internal/service/payment_service.go:510-531 | closes initiated payments only |
| Payments.PaymentTables.CancelPayment | internal/service/payment_service.go:538-551 | a user's own initiated payment, and nothing else |
| SaleAnswers.CancelSaleAnswers | internal/service/payment_service.go:538-551 | the user's own open payment is abandoned with its coupon use back, and no other call changes anything |
| Payments.PaymentTables.ReconcilePending | internal/service/payment_service.go:573-607 | the pass over stale rows and its counters |
| Payments.PassDecides | internal/service/payment_service.go:573-607 | in any state whose references exist, re-grants included, a pass grants what bKash confirms in full, flags other amounts, closes old unpaid ones, leaves a confirmed negative amount waiting, and touches nothing else |
| Jobs.PassTouchesOldSales | internal/service/payment_service.go:573-607 | a pass leaves payments alone that are not open long enough and ends the others as bKash answers, all of them below its batch |
| Jobs.ReportMatchesSales | internal/service/payment_service.go:573-607 | its report counts the payments it leaves |
| Payments.PassKeepsTill | internal/service/payment_service.go:573-607 | on answers bKash gave, a pass keeps the invariant of the subscription half |
| Payments.PaymentTables.RefundSubscriptionPayment | internal/service/refund_service.go:86-138 | the whole refund, undone completely when the refund row already exists |
| SaleAnswers.RefundSaleAnswers | internal/service/refund_service.go:86-138 | what a refund answers, when, and what it leaves: payment refunded, receipt void, a completed payment's coupon use back |
| Engine.StepKeepsMoney | internal/service/billing_service.go:92-133 | every step of any client, job or admin keeps all marketplace and ledger invariants, aborted or not |
| Engine.EveryRunKeepsMoney | internal/service/billing_service.go:92-133 | and so does every run |
| Engine.StepKeepsInvIff | internal/service/payment_service.go:332-418 | the invariant of the whole state survives a step if and only if it does not grant a refunded payment again |
| Engine.EveryRunKeepsInv | internal/service/payment_service.go:332-418 | so they survive every run without such a step |
| ClosedForms.LedgerMatchesBusiness | internal/service/billing_service.go:144-151 | each account's balance is the sum of what every order, payment and payout stands for |
| Safety.LedgerMatchesBusinessAlways | internal/service/billing_service.go:144-151 | the same after every run from a fresh start |
| Safety.SummaryAddsUp | internal/service/billing_service.go:615-650 | the summary's identity after every run |
| Safety.EscrowShareNegativeIff | internal/service/billing_service.go:284-430 | an order takes more out of escrow than it put in exactly when it is a released, unrefunded bKash order with a negative delivery charge; released implies paid |
| Safety.EscrowBalance | internal/service/billing_service.go:284-430 | escrow is the totals of booked, unreleased, unrefunded orders plus the delivery charges of released ones; it is below zero exactly when the negative charges outweigh the rest |
| Scenarios.EscrowFallsBelowZero | internal/delivery/http/handler/merchant_handler.go:370-413 | a run from a fresh start, one order of 100 with delivery -50, that ends with escrow at -50 |
| Safety.SellerBalance | internal/service/billing_service.go:156-158 | a seller's balance is earnings of released, unrefunded orders less payouts requested or sent |
| Safety.PayoutBalances | internal/service/billing_service.go:506-540 | pending is what was requested and not settled, cash-out what was transferred |
| Safety.SubscriptionRevenue | internal/service/billing_service.go:252-261 | revenue is what was booked and not reversed, which is what completed payments charged |
| Safety.RefundIsForever | internal/service/refund_service.go:146-204 | from a refund on every account's net effect of the order is zero in all later runs, and nothing posts for it again |
| Safety.RefundSucceedsIff | internal/service/refund_service.go:146-172 | exactly when an order refund goes through |
| Payouts.SettledOnce | internal/service/billing_service.go:506-516 | a settled payout never changes again, over any run |
| Payouts.SettlementMoves | internal/service/billing_service.go:506-540 | in any reachable state settling a requested payout goes through and moves exactly its amount, from pending to cash-out or back to its seller, and nothing else |
| Payouts.RejectionIsForever | internal/service/billing_service.go:506-540 | the journals of a rejected payout cancel out on every account in all later runs |
| Payouts.RejectionRestores | internal/service/billing_service.go:522-531 | asking out and rejecting restores every account exactly |
| Payouts.NeverOverdrawn | internal/service/billing_service.go:458-502 | however requests interleave or roll back, a seller's balance stays non-negative unless cash-sale commission or the refund of a released sale takes it below |
| Earnings.PaidOnlyFromEarnings | internal/service/billing_service.go:458-502 | after every run a seller was never paid out more than was earned; the balance is below zero exactly when cash commission and refunds took back more than the earnings not paid out |
| Earnings.BalanceSplits | internal/service/billing_service.go:156-158 | a seller's balance is earnings, less what cash commission and refunds took back, less payouts |
| Earnings.StepKeepsCovered | internal/service/billing_service.go:458-502 | every step, payout halves and roll-backs included, keeps earnings covering what was paid out and the request under way |
| Stock.StepMovesUnits | internal/service/refund_service.go:177-184 | units on the shelf and with orders are conserved by every step but the refund of an already cancelled order, which adds exactly that order's units |
| Stock.StockIsConserved | internal/service/order_service.go:94-250 | over every run the units of a product never become fewer, and stay the same if and only if no refund restocks units of it for an order cancelled before |
| Stock.StockNeverNegative | internal/service/order_service.go:94-114 | stock is never negative, over every run |
| Stock.LateRefundRestocksTwice | internal/service/refund_service.go:177-184 | cancel, late confirmation, refund: every unit is put back twice |
| OncePaid.ExactlyOnce | internal/service/payment_service.go:332-418 | at most one subscription, journal and invoice per payment; all three if completed, none unless completed or refunded; and then bKash took and reported the money |
| OncePaid.StepPaysOnceIff | internal/service/payment_service.go:332-418 | the exactly-once conclusion itself survives a step if and only if the step does not fulfil a payment refunded after being granted, whether the answer matches or not |
| OncePaid.EveryRunPaysOnce | internal/service/payment_service.go:259-295 | the exactly-once conclusion for every interleaving from a fresh start without a re-grant |
| OncePaid.EveryRunBooksOnce | internal/service/payment_service.go:332-418 | after every run, re-grants included: one revenue journal and one invoice at most, revenue for each completed payment, and no revenue bKash did not report |
| OncePaid.EveryRunKeepsEvidence | internal/service/payment_service.go:168-239 | after every run bKash's reports are of money it took, whatever was granted was reported, and payments name users, plans and coupons that exist |
| OncePaid.CompletedUntilRefunded | internal/service/payment_service.go:506-531 | no cancel, failure, reconcile or repeated answer undoes a completed payment, over any run |
| OncePaid.LateAnswerRegrants | internal/service/payment_service.go:346-350 | refund, then a repeat of the confirming answer: a second subscription and no revenue |
| CouponLaws.CouponCounterIsUses | internal/service/payment_service.go:140-166 | after every run a coupon's counter is the uses held by open checkouts and payments less those of payments granted again after their refund, so exact if and only if no payment of the coupon was; it never passes its cap but by forced uses, and whoever hands a use back finds it above zero |
| CouponLaws.StepCounts | internal/service/payment_service.go:140-166 | every step keeps what the counter counts: reserving, handing back on any failure, closing, granting with or without the reservation, refunding, granting again |
| CouponLaws.CounterLaw | internal/service/payment_service.go:332-418 | the counter equals the uses held exactly when no reserved payment whose sale was reversed has a status other than refunded |
| CouponLaws.HeldUseIsCounted | internal/service/payment_service.go:156-166 | the guard on the counter never swallows a release |
| Scenarios.CouponCountsOneShort | internal/service/payment_service.go:346-350 | pay with a coupon, refund, repeat the answer: from a fresh start the counter ends one below the uses held |
| OncePaid.OrderPaidOnce | internal/service/marketplace_payment_service.go:169-226 | of all payments opened for an order at most one completes |
| Evidence.CompletedWasPaid | internal/service/marketplace_payment_service.go:127-226 | after every run a completed payment row was paid at bKash, which reported its amount or none readable |
| Evidence.BookedWasPaidIff | internal/service/billing_service.go:284-295 | after every run buyer money is in the ledger for an order that no confirmed payment backs if and only if a delivery booked it unpaid |
| Evidence.StepBooksUnpaidIff | internal/service/billing_service.go:343-378 | the step that books an order no confirmed payment backs is such a delivery, and no other |
| Evidence.DeliveryBooksIff | internal/service/billing_service.go:343-378 | exactly when a delivery books a payment nobody booked |
| Evidence.UnpaidDeliveryIsBooked | internal/service/order_service.go:54-64 | an unpaid bKash order marked delivered is booked as paid and its earnings are released |
| OncePaid.InvoicesAfterEveryRun | internal/service/billing_service.go:175-246 | after every run the invoices are gapless, one per source, add up and have unique numbers |
| Receipts.ReceiptsAlwaysRight | internal/service/billing_service.go:252-317 | after every run each subscription's receipt shows the plan's price, the discount and what was charged, and each order's totals its items, without the delivery charge |
| SaleAnswers.SaleReceipt | internal/service/billing_service.go:252-279 | the journal and the receipt a completed payment leaves |
| MarketSteps.BillListsItems | internal/service/billing_service.go:297-317 | an order's invoice lists its lines one by one |
| Receipts.BookedOrdersAreInvoiced | internal/service/billing_service.go:343-378 | after every run each order whose payment or earnings are booked has its invoice, cash orders included |
| Receipts.OrderRefundedOnce | internal/service/refund_service.go:146-172 | after a refund and any run a second refund of the order is told so and changes nothing |
| SaleRefunds.SaleRefundedOnce | internal/service/refund_service.go:86-138 | after a refund and any run a second refund of a subscription payment is told so and changes nothing |
| SaleRefunds.StepNetsZeroIff | internal/service/refund_service.go:86-138 | a refunded payment's net effect stays zero through a step if and only if the step does not grant it for the first time |
| SaleRefunds.SaleRefundIsForeverIff | internal/service/refund_service.go:86-138 | from its refund on a payment moves no money in any run if and only if no fulfilment grants it for the first time; the refund of a granted payment is for good |
| SaleRefunds.RefundedReviewIsBooked | internal/service/payment_service.go:346-350 | a payment refunded from review is granted and booked by a later answer, and no refund ends that in any run |
| Insights.Stats | internal/service/merchant_insights_service.go:71-143 | the loop's totals, distinct orders, per-product figures, rounding and average, and one point per day of the window, zeros included |
| Insights.SeriesMissesEarliestDay | internal/service/merchant_insights_service.go:75-143 | the points add up to the gross revenue less what was sold on the earliest day the query reaches |
| Insights.NetRevenueNearLedger | internal/service/merchant_insights_service.go:100-131 | for any lines the displayed net differs from the ledger's credit by the gaps of the clamped lines, and otherwise by at most (n + 1) / 2 taka over the n others, one taka more when the net is negative |
| Insights.SaleRevenueNearLedger | internal/service/merchant_insights_service.go:100-131 | with no negative price or quantity and rates in [0, 100]: by at most (n + 1) / 2 taka |
| Insights.NegativeLineStrays | internal/service/merchant_insights_service.go:100-131 | lines of -100 and 500 at 10 percent: the ledger credits 350, the dashboard shows 360 |
| Paging.InsertionSort | internal/service/refund_service.go:300-305 | the in-place sort is a stable sort, newest first |
| Paging.StableSortIsUnique | internal/service/refund_service.go:300-305 | there is only one |
| Paging.ListPayments | internal/service/refund_service.go:278-314 | fetching only limit + offset rows of each table gives the page that stably sorting both whole tables would give |
| Comments.GetCommentsByPostID | internal/repository/postgres/community_repository.go:185-225 | every comment's replies are its fetched children in fetch order, and the roots are copies of the linked roots |
| Comments.ForestHasChainsOnce | internal/repository/postgres/community_repository.go:195-224 | the forest holds exactly the comments whose whole ancestor chain was fetched, each once, cycles or not |
| Comments.FindInPointers | internal/usecase/community_usecase.go:161-173 | the recursive search ends and finds an id exactly when the walk below meets it |
| Comments.FindInObjects | internal/usecase/community_usecase.go:175-189 | the same over the returned roots |
| Comments.AddComment | internal/usecase/community_usecase.go:142-196 | answers the comment as the forest has it, or the bare one when its chain is broken |
| Entitlements.PeriodKeysApart | internal/service/entitlement_service.go:37-47 | two dates share a counter exactly when they are in the same period, and kinds of period never collide |
| Entitlements.UsageTables.Resolve | internal/service/entitlement_service.go:51-145 | Pro status, the newest running row and its plan, defaults, and the perks of the access grants that cover the user, with every known feature present |
| Entitlements.PlanDecidesAccess | internal/service/entitlement_service.go:71-145 | what a running plan lists decides each access: the last row for the feature, what is left of its cap, and none for a cap of zero or no row |
| Entitlements.OffersSwitchOn | internal/service/entitlement_service.go:95-108 | an offer switches its own feature on without limit, and a user who is not Pro has nothing else |
| AccessGrants.ResolvePerks | internal/service/access_grant.go:75-116 | the loop switches a perk on exactly if some grant gives it, with the latest end among those, and shows the label of a longest-running grant |
| AccessGrants.WhoIsReached | internal/service/access_grant.go:23-46 | whom a grant reaches by university, department, batch or as a user |
| AccessGrants.PerkLastsUntil | internal/service/access_grant.go:49-71 | the end it answers is exactly how long the started grants give the perk |
| Entitlements.GraceLiftsLimits | internal/service/entitlement_service.go:51-90 | a Pro user without a running row has every default feature without limit, whatever the plan caps, and no other |
| Entitlements.GraceIsWithoutPlan | internal/service/entitlement_service.go:51-69 | the grace week after a dated grant that outlasts the earlier rows is such a time |
| Entitlements.UsageTables.Check | internal/service/entitlement_service.go:154-160 | the access to one feature, denied if unknown |
| Entitlements.UsageTables.Consume | internal/service/entitlement_service.go:165-197 | what is spent and answered, whatever the two clock readings |
| Entitlements.CheckForetellsConsume | internal/service/entitlement_service.go:154-197 | on one day a spending goes through exactly when a check shows the feature unlimited or enough left, and later checks show that much less |
| Entitlements.CounterIsWhatSucceeded | internal/service/entitlement_service.go:182-195 | under every interleaving a counter is the sum of what succeeded and never exceeds the limit |

## Left out

- HTTP, tokens, the bKash client, Telegram, push and e-mail notifications: input and output only. bKash is the
  environment: per payment it has taken money or not (for good), and what it answers about that is a parameter.
- Checkout of an order (reading products, addresses and rates) is not part of this model; what it builds is a
  parameter: quantities of at least one, the total being items plus delivery charge, and the initial status.
- Floating point: commission rates and the dashboard's running sum are exact reals.
- Time is whole seconds, a day is 86400 of them, and there are no time zones or leap seconds; calendar dates are
  parameters where a year or a day matters.
- Rows keep their table order: "newest" and "oldest first" mean position, so two rows never tie on their time stamp.
- A merchant's platform flag does not change once set, and prices, coupon terms and stock are not edited by admins
  while the protocols run.
- A checkout that crashes after reserving a coupon stays open, as its use stays counted in the code.
- Subscriptions.RowsFollowPurchases: for runs of grants and sweeps; a refund marks rows and recomputes Pro from the
  ends without grace, after which neither stacking nor the Pro agreement is claimed.
- Subscriptions.ProMeansRowRunning: for runs whose sweeps are timely and whose creations are coherent, which is
  exactly what each event needs.
- Engine.EveryRunKeepsInv: for runs in which no fulfilment reaches a refunded, granted payment, the exact condition.
- Marketplace.MarketTables.ExpireUnpaid: the method is one undisturbed call; what interleaving does to it is said by
  `Scenarios.LateExpiryCancelsIff`.
- SubscriptionTable.SubscriptionTable.ExpireSubscriptions: likewise; see `Subscriptions.EventKeepsAgreementIff`.
- Comments.FindInObjects: authors, contents and likes are not modelled, only ids, parents and replies.
- Insights.Stats: the views, low-stock counts and the top-five cut are queries or formatting.
- Payments completed before a subscription id was stored, a missing billing service and orders older than the ledger
  are not modelled, except that a delivery books a missing payment journal.
- Refund, payout and invoice lists, ledger listing, stats queries, reviews, clubs, resources and other records that are
  only stored and read.
