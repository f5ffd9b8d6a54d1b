/** What each call of the subscription payments answers, when, and what it leaves, read off the tables'
    fields. */
module SaleAnswers {
  import opened Sums
  import opened Ledger
  import opened Invoices
  import opened Coupons
  import opened Subscriptions
  import opened Shop
  import opened MarketSteps
  import opened MarketLaws
  import opened TillSteps
  import opened TillLaws
  import opened Engine
  import opened CouponLaws
  import opened Purchases
  import opened OrderAnswers
  import opened Payments

  // ---- checkout ----

  /** What a checkout is charged: the plan's price, or what the coupon makes of it. */
  lemma QuoteForAnswers(pay: Pay, plan: nat, coupon: Option<nat>, now: int)
    requires plan < |pay.plans|
    ensures var q, price := QuoteFor(pay, plan, coupon, now), pay.plans[plan].price;
            match coupon
            case None => q == Price(price)
            case Some(c) =>
              q == if c < |pay.coupons| then ValidateCoupon(pay.coupons[c], plan, price, now) else CouponNotFound
  {
  }

  /** The coupon may be used for this plan now: it is switched on, not past its end, under its cap, at or
      above its minimum and for this plan or any. */
  predicate Usable(c: Coupon, plan: nat, price: int, now: int) {
    && c.active && !Lapsed(c, now) && (c.maxUses == 0 || c.used < c.maxUses) && !TooCheap(c, price)
    && (c.plan.None? || c.plan == Some(plan))
  }

  /** A checkout opens a payment if and only if its plan exists, its coupon, if any, exists and is usable,
      bKash gives a session and the row can be written. */
  lemma CheckoutOpensIff(pay: Pay, plan: nat, coupon: Option<nat>, session: bool, saved: bool, now: int)
    ensures var answer := CheckoutAnswer(pay, plan, coupon, session, saved, now);
            var usable := plan < |pay.plans| && (coupon.Some? ==>
                            coupon.value < |pay.coupons|
                            && Usable(pay.coupons[coupon.value], plan, pay.plans[plan].price, now));
            && (answer == Opened <==> usable && session && saved)
            && (answer == PlanNotFound <==> plan >= |pay.plans|)
            && (answer == GatewayFailed <==> usable && !session)
            && (answer == NotSaved <==> usable && session && !saved)
            && (answer.Refused? <==> plan < |pay.plans| && !usable)
            && (answer == Refused(CouponNotFound) <==>
                  plan < |pay.plans| && coupon.Some?
                  && (coupon.value >= |pay.coupons| || !pay.coupons[coupon.value].active))
            && (answer == Refused(CouponExpired) <==>
                  plan < |pay.plans| && coupon.Some? && coupon.value < |pay.coupons|
                  && pay.coupons[coupon.value].active && Lapsed(pay.coupons[coupon.value], now))
  {
    if plan < |pay.plans| && coupon.Some? && coupon.value < |pay.coupons| {
      QuoteAnswers(pay.coupons[coupon.value], plan, pay.plans[plan].price, now);
    }
  }

  /** An opened checkout leaves one payment, as it was quoted, waiting; nothing else but the coupon's use and
      the call's own record changes. A checkout without coupon is charged the plan's price. */
  lemma CheckoutWrites(pay: Pay, user: nat, plan: nat, coupon: Option<nat>, session: bool, saved: bool, now: int)
    requires user < |pay.accounts| && CheckoutAnswer(pay, plan, coupon, session, saved, now) == Opened
    ensures var after := CheckoutCall(pay, user, plan, coupon, session, saved, now);
            && |after.payments| == |pay.payments| + 1 && after.payments[..|pay.payments|] == pay.payments
            && var pm := after.payments[|pay.payments|];
            && QuoteFor(pay, plan, coupon, now) == Price(pm.amount)
            && pm == Payment(user, plan, pm.amount, pay.plans[plan].price, coupon, coupon.Some?, Initiated, None, now)
            && after.gateway == pay.gateway + [NotYetPaid]
            && after.accounts == pay.accounts && after.plans == pay.plans
            && after.reports == pay.reports && after.refunded == pay.refunded
            && (coupon.None? ==> pm.amount == pay.plans[plan].price && after.coupons == pay.coupons)
  {
  }

  // ---- closing ----

  /** One use of the coupon less, if there is one. */
  predicate UseBack(before: seq<Coupon>, after: seq<Coupon>, coupon: Option<nat>) {
    && |after| == |before|
    && forall c: nat | c < |before| ::
         after[c] == if coupon == Some(c) then before[c].(used := before[c].used - 1) else before[c]
  }

  /** The open payment ends with this status and no reservation, its coupon use is back, and nothing else
      changes. */
  predicate PaymentClosed(before: Pay, after: Pay, p: nat, to: TxStatus) {
    && p < |before.payments|
    && UseBack(before.coupons, after.coupons, before.payments[p].coupon)
    && after == before.(payments := before.payments[p := before.payments[p].(status := to, reserved := false)],
                        coupons := after.coupons)
  }

  lemma CloseAnswers(t: Till, p: nat, to: TxStatus)
    requires CouponInv(t) && to in {Failed, Abandoned}
    ensures if p < |t.pay.payments| && t.pay.payments[p].status == Initiated
            then PaymentClosed(t.pay, Close(t.pay, p, to), p, to) else Close(t.pay, p, to) == t.pay
  {
    if p < |t.pay.payments| && t.pay.payments[p].status == Initiated {
      var pm := t.pay.payments[p];
      assert RowHolds(t, p);
      if pm.coupon.Some? && pm.coupon.value < |t.pay.coupons| {
        HeldUseIsCounted(t, Terminate(p, to), pm.coupon.value);
      }
    }
  }

  /** The user's own open payment is abandoned and its coupon use is back; any other call changes nothing. */
  lemma CancelSaleAnswers(t: Till, user: nat, p: nat)
    requires CouponInv(t)
    ensures var o := CancelSale(t, user, p);
            && (o.reply == NotFound <==> p >= |t.pay.payments|)
            && (o.reply == Forbidden <==> p < |t.pay.payments| && t.pay.payments[p].user != user)
            && (o.reply == Ok <==> p < |t.pay.payments| && t.pay.payments[p].user == user)
            && o.after.books == t.books
            && if o.reply == Ok && t.pay.payments[p].status == Initiated
               then PaymentClosed(t.pay, o.after.pay, p, Abandoned) else o.after == t
  {
    CloseAnswers(t, p, Abandoned);
  }

  // ---- executing ----

  /** Executing a payment: another user's, a completed or a flagged one is left alone; so is any when bKash
      can not be reached and its record shows no success. A refusal closes an open one as failed and
      hands its coupon use back. Success by either answer, the execution's own first, fulfils it. */
  lemma ExecuteSaleAnswers(t: Till, user: nat, p: nat, execute: Answer, query: Answer, now: int, year: nat)
    requires CouponInv(t) && p < |t.pay.payments|
    ensures var o, pm := ExecuteSale(t, user, p, execute, query, now, year), t.pay.payments[p];
            if pm.user != user then o == TillOutcome(t, Forbidden)
            else if pm.status == Completed then o == TillOutcome(t, Ok)
            else if pm.status == NeedsReview then o == TillOutcome(t, AmountMismatch)
            else if execute.PaidInFull? then o == Settle(t, p, execute.amount, now, year)
            else if query.PaidInFull? then o == Settle(t, p, query.amount, now, year)
            else if execute == Unreachable then o == TillOutcome(t, GatewayError)
            else
              && o.reply == PaymentNotCompleted && o.after.books == t.books
              && if pm.status == Initiated then PaymentClosed(t.pay, o.after.pay, p, Failed) else o.after == t
  {
    CloseAnswers(t, p, Failed);
  }

  /** The status that success leaves, by the reported amount: for another amount review, for the amount or
      none readable completed, unless that is negative. No other payment changes. */
  lemma ExecutedStatus(t: Till, user: nat, p: nat, execute: Answer, query: Answer, now: int, year: nat)
    requires RefsOK(t.pay) && p < |t.pay.payments| && t.pay.payments[p].user == user
    requires t.pay.payments[p].status !in {Completed, NeedsReview} && (execute.PaidInFull? || query.PaidInFull?)
    ensures var o, pm := ExecuteSale(t, user, p, execute, query, now, year), t.pay.payments[p];
            var amount := if execute.PaidInFull? then execute.amount else query.amount;
            && |o.after.pay.payments| == |t.pay.payments|
            && o.after.pay.payments[p].status ==
               (if amount.Some? && amount.value != pm.amount then NeedsReview
                else if pm.amount >= 0 then Completed else pm.status)
            && (forall q | 0 <= q < |t.pay.payments| && q != p :: o.after.pay.payments[q] == t.pay.payments[q])
  {
    var amount := if execute.PaidInFull? then execute.amount else query.amount;
    SettleAnswers(t, p, amount, now, year);
    if CompletesNow(t.pay, p, amount) {
      PaymentBuysItsPlan(t, p, amount, now, year);
    }
  }

  // ---- the receipt ----

  /** A completed payment is booked as revenue, and its receipt shows the plan's price, the discount and
      what was charged. */
  lemma SaleReceipt(t: Till, p: nat, amount: Option<int>, now: int, year: nat)
    requires BooksOK(t) && CompletesNow(t.pay, p, amount) && !HasInvoice(t.books.invoices, OfPayment(p))
    ensures var pm, books := t.pay.payments[p], Settle(t, p, amount, now, year).after.books;
            && Keys(books.journals) == Keys(t.books.journals) + {SubKey(p)}
            && |books.invoices| == |t.books.invoices| + 1 && t.books.invoices <= books.invoices
            && var inv := books.invoices[|t.books.invoices|];
            && inv.source == OfPayment(p) && inv.total == pm.amount && !inv.voided
            && inv.subtotal == (if pm.original > pm.amount then pm.original else pm.amount)
            && inv.discount == (if pm.original > pm.amount then pm.original - pm.amount else 0)
  {
    SaleIsAccepted(t.books, p, t.pay.payments[p], year);
    SaleFacts(t, p, year);
  }

  // ---- refunds ----

  /** A refund goes through for a completed payment, or one under review, that has no refund yet. It stamps
      the receipt void, and a completed payment's coupon use goes back. Otherwise nothing changes, and the
      answer says why. */
  lemma RefundSaleAnswers(t: Till, p: nat, reference: string, now: int)
    requires BooksOK(t) && CouponInv(t)
    ensures var o := RefundPayment(t, p, reference, now);
            var known := !Blank(reference) && p < |t.pay.payments|;
            && (o.reply == Ok <==>
                  known && t.pay.payments[p].status in {Completed, NeedsReview} && p !in t.pay.refunded)
            && (o.reply == NotFound <==> !Blank(reference) && p >= |t.pay.payments|)
            && (o.reply == AlreadyRefunded <==> known && t.pay.payments[p].status == Refunded)
            && (o.reply == NotRefundable <==>
                  Blank(reference) || (known && t.pay.payments[p].status in {Initiated, Failed, Abandoned}))
            && (o.reply == DuplicateRefund <==>
                  known && t.pay.payments[p].status in {Completed, NeedsReview} && p in t.pay.refunded)
            && (o.reply != Ok ==> o.after == t)
    ensures var o := RefundPayment(t, p, reference, now);
            o.reply == Ok ==>
              && var pm := t.pay.payments[p];
              && o.after.pay.payments == t.pay.payments[p := pm.(status := Refunded)]
              && o.after.pay.refunded == t.pay.refunded + {p} && o.after.pay.checkouts == t.pay.checkouts
              && UseBack(t.pay.coupons, o.after.pay.coupons, if pm.status == Completed then pm.coupon else None)
              && OnlyVoids(t.books.invoices, o.after.books.invoices, OfPayment(p))
  {
    ReversalIsAccepted(t.books.journals, OfPayment(p), {SubscriptionPayment});
    if RefundPayment(t, p, reference, now).reply == Ok {
      var pm := t.pay.payments[p];
      if pm.status == Completed && pm.coupon.Some? && pm.coupon.value < |t.pay.coupons| {
        HeldUseIsCounted(t, RefundUser(p, reference), pm.coupon.value);
      }
    }
  }
}
