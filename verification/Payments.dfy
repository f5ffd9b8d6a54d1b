/** The subscription payment tables, updated in place by the payment and refund services. Each method
    is one call with nothing interleaved; its transactions are the steps that TillSteps gives as values. */
module Payments {
  import opened Sums
  import opened Ledger
  import opened Invoices
  import opened Coupons
  import opened Subscriptions
  import opened SubscriptionTable
  import opened Shop
  import opened MarketSteps
  import opened MarketLaws
  import opened TillSteps
  import opened TillLaws
  import opened Billing
  import opened Marketplace

  // ---- calls that run several steps ----

  datatype CheckoutReply = Opened | PlanNotFound | Refused(quote: Quote) | GatewayFailed | NotSaved

  /** A whole checkout: reserve, open a session at bKash, write the row; or hand the use back. */
  function CheckoutCall(pay: Pay, user: nat, plan: nat, coupon: Option<nat>, session: bool, saved: bool,
                        now: int): Pay {
    var begun, k := BeginCheckout(pay, user, plan, coupon, now), |pay.checkouts|;
    if |begun.checkouts| == k then begun
    else if session && saved then PersistCheckout(begun, k, now) else AbortCheckout(begun, k)
  }

  function CheckoutAnswer(pay: Pay, plan: nat, coupon: Option<nat>, session: bool, saved: bool,
                          now: int): CheckoutReply {
    if plan >= |pay.plans| then PlanNotFound else
      var q := QuoteFor(pay, plan, coupon, now);
      if !q.Price? then Refused(q)
      else if coupon.Some? && !Reservable(pay.coupons[coupon.value]) then Refused(CouponExhausted)
      else if !session then GatewayFailed
      else if !saved then NotSaved
      else Opened
  }

  /** A checkout charges the quoted price, at most the plan's own unless its coupon raises it, and holds
      one use of that coupon; one that fails at any point leaves payments and coupons as they were. */
  lemma CheckoutChargesQuote(pay: Pay, user: nat, plan: nat, coupon: Option<nat>, session: bool, saved: bool, now: int)
    requires user < |pay.accounts| && forall c | c in pay.coupons :: c.used >= 0
    ensures var after := CheckoutCall(pay, user, plan, coupon, session, saved, now);
            if CheckoutAnswer(pay, plan, coupon, session, saved, now) != Opened
            then after.payments == pay.payments && after.coupons == pay.coupons
            else
              && |after.payments| == |pay.payments| + 1 && after.payments[..|pay.payments|] == pay.payments
              && var pm := after.payments[|pay.payments|];
              && QuoteFor(pay, plan, coupon, now) == Price(pm.amount)
              && pm.original == pay.plans[plan].price
              && (pm.amount <= pm.original <==> (coupon.Some? ==> Lowers(pay.coupons[coupon.value], pm.original)))
              && (pm.amount < 0 ==> pm.original < 0)
              && pm.user == user && pm.coupon == coupon && pm.status == Initiated
              && after.coupons == if coupon.Some? then Reserve(pay.coupons, coupon.value) else pay.coupons
  {
    if plan < |pay.plans| && coupon.Some? && coupon.value < |pay.coupons| {
      var c := pay.coupons[coupon.value];
      assert c in pay.coupons;
      if ValidateCoupon(c, plan, pay.plans[plan].price, now).Price? {
        QuotesStayInRange(c, plan, pay.plans[plan].price, now);
      }
      assert GiveBack(Reserve(pay.coupons, coupon.value), coupon.value) == pay.coupons;
    }
  }

  function ExecuteSale(t: Till, user: nat, p: nat, execute: Answer, query: Answer, now: int, year: nat): TillOutcome {
    if p >= |t.pay.payments| then TillOutcome(t, NotFound) else
      var pm := t.pay.payments[p];
      if pm.user != user then TillOutcome(t, Forbidden)
      else if pm.status == Completed then TillOutcome(t, Ok)
      else if pm.status == NeedsReview then TillOutcome(t, AmountMismatch)
      else match Verdict(execute, query)
           case Unreachable => TillOutcome(t, GatewayError)
           case NotPaid => TillOutcome(t.(pay := Close(t.pay, p, Failed)), PaymentNotCompleted)
           case PaidInFull(amount) => Settle(t, p, amount, now, year)
  }

  function CancelSale(t: Till, user: nat, p: nat): TillOutcome {
    if p >= |t.pay.payments| then TillOutcome(t, NotFound)
    else if t.pay.payments[p].user != user then TillOutcome(t, Forbidden)
    else TillOutcome(t.(pay := Close(t.pay, p, Abandoned)), Ok)
  }

  predicate StalePayment(payments: seq<Payment>, p: nat, cutoff: int) {
    p < |payments| && payments[p].status == Initiated && payments[p].createdAt < cutoff
  }

  function StalePayments(payments: seq<Payment>, cutoff: int): nat -> bool {
    (p: nat) => StalePayment(payments, p, cutoff)
  }

  function ReconciledSale(t: Till, p: nat, overdue: bool, answer: Answer, now: int, year: nat): TillOutcome {
    match answer
    case Unreachable => TillOutcome(t, GatewayError)
    case PaidInFull(amount) => Settle(t, p, amount, now, year)
    case NotPaid =>
      TillOutcome(if overdue then t.(pay := Close(t.pay, p, Abandoned)) else t, PaymentNotCompleted)
  }

  datatype SalePass = SalePass(till: Till, stats: Stats)

  function ReconcileSales(t: Till, picked: seq<nat>, oldest: int, answers: nat -> Answer, now: int,
                          year: nat): SalePass {
    if picked == [] then SalePass(t, Stats(0, 0, 0, 0)) else
      var before := ReconcileSales(t, picked[..|picked| - 1], oldest, answers, now, year);
      var p := picked[|picked| - 1];
      var overdue := p < |t.pay.payments| && t.pay.payments[p].createdAt < oldest;
      var o := ReconciledSale(before.till, p, overdue, answers(p), now, year);
      SalePass(o.after, Tallied(before.stats, overdue, answers(p), o.reply))
  }

  // ---- what a pass achieves ----

  lemma ReconciledSaleRow(t: Till, p: nat, overdue: bool, answer: Answer, now: int, year: nat)
    requires RefsOK(t.pay) && p < |t.pay.payments| && t.pay.payments[p].status == Initiated
    ensures var after := ReconciledSale(t, p, overdue, answer, now, year).after;
            && RefsOK(after.pay) && t.pay.reports == after.pay.reports && |after.pay.payments| == |t.pay.payments|
            && (forall q | 0 <= q < |t.pay.payments| && q != p :: after.pay.payments[q] == t.pay.payments[q])
            && after.pay.payments[p].status == DecidedStatus(t.pay.payments[p], overdue, answer)
  {
    SaleLinesSoundIff(t.pay.payments[p]);
  }

  lemma ReconciledSaleKeeps(t: Till, p: nat, overdue: bool, answer: Answer, now: int, year: nat)
    requires TillInv(t) && p < |t.pay.payments| && t.pay.payments[p].status == Initiated
    requires answer.PaidInFull? ==> (p, answer.amount) in t.pay.reports
    ensures TillInv(ReconciledSale(t, p, overdue, answer, now, year).after)
  {
    match answer
    case PaidInFull(amount) => SettleKeepsTillIff(t, p, amount, now, year);
    case NotPaid => CloseKeepsTill(t, p, Abandoned);
    case Unreachable =>
  }

  lemma SaleLinesSoundIff(pm: Payment)
    ensures Sound(SaleLines(pm)) <==> pm.amount >= 0
  {
    if pm.amount >= 0 {
      TransferFacts(GatewayBkash, RevenueSubs, pm.amount, RevenueSubs);
    } else {
      assert SaleLines(pm)[0] in SaleLines(pm) && !ValidLine(SaleLines(pm)[0]);
    }
  }

  /** What bKash's answer makes of an initiated payment. The ledger refuses a negative amount, and the
      payment waits on. */
  function DecidedStatus(pm: Payment, overdue: bool, answer: Answer): TxStatus {
    match answer
    case Unreachable => Initiated
    case NotPaid => if overdue then Abandoned else Initiated
    case PaidInFull(amount) =>
      if amount.Some? && amount.value != pm.amount then NeedsReview else if pm.amount >= 0 then Completed else Initiated
  }

  /** A pass grants every picked payment that bKash confirms in full, flags the ones it confirms for
      another amount, closes unpaid ones once old enough, and touches nothing else. The state may be one
      in which a refunded payment was granted again. */
  lemma {:induction false} PassDecides(t: Till, picked: seq<nat>, oldest: int, answers: nat -> Answer, now: int,
                                       year: nat)
    requires RefsOK(t.pay) && AllDistinct(picked)
    requires forall p | p in picked :: p < |t.pay.payments| && t.pay.payments[p].status == Initiated
    ensures var after := ReconcileSales(t, picked, oldest, answers, now, year).till;
            && RefsOK(after.pay) && after.pay.reports == t.pay.reports && |after.pay.payments| == |t.pay.payments|
            && (forall p | p in picked ::
                  after.pay.payments[p].status ==
                    DecidedStatus(t.pay.payments[p], t.pay.payments[p].createdAt < oldest, answers(p)))
            && (forall p | 0 <= p < |t.pay.payments| && p !in picked :: after.pay.payments[p] == t.pay.payments[p])
  {
    if picked != [] {
      var rest, p := picked[..|picked| - 1], picked[|picked| - 1];
      SplitLast(picked);
      PassDecides(t, rest, oldest, answers, now, year);
      var before := ReconcileSales(t, rest, oldest, answers, now, year).till;
      ReconciledSaleRow(before, p, t.pay.payments[p].createdAt < oldest, answers(p), now, year);
    }
  }

  /** On answers that bKash gave, a pass keeps every invariant. */
  lemma {:induction false} PassKeepsTill(t: Till, picked: seq<nat>, oldest: int, answers: nat -> Answer, now: int,
                                         year: nat)
    requires TillInv(t) && AllDistinct(picked)
    requires forall p | p in picked :: p < |t.pay.payments| && t.pay.payments[p].status == Initiated
    requires forall p | p in picked && answers(p).PaidInFull? :: (p, answers(p).amount) in t.pay.reports
    ensures TillInv(ReconcileSales(t, picked, oldest, answers, now, year).till)
  {
    if picked != [] {
      var rest, p := picked[..|picked| - 1], picked[|picked| - 1];
      SplitLast(picked);
      PassKeepsTill(t, rest, oldest, answers, now, year);
      PassDecides(t, rest, oldest, answers, now, year);
      var before := ReconcileSales(t, rest, oldest, answers, now, year).till;
      ReconciledSaleKeeps(before, p, t.pay.payments[p].createdAt < oldest, answers(p), now, year);
    }
  }

  class PaymentTables {
    const billing: BillingTables
    const subscriptions: SubscriptionTable
    var plans: seq<Plan>
    var coupons: seq<Coupon>
    var payments: seq<Payment>
    var refunded: set<nat>
    /** Calls in flight, and what bKash knows and has said. */
    ghost var checkouts: seq<Checkout>
    ghost var gateway: seq<Session>
    ghost var reports: set<(nat, Option<int>)>

    constructor (billing: BillingTables, subscriptions: SubscriptionTable, plans: seq<Plan>, coupons: seq<Coupon>)
      ensures this.billing == billing && this.subscriptions == subscriptions
      ensures Value() == Till(billing.Value(), Pay(plans, coupons, subscriptions.accounts, [], [], [], {}, {}))
    {
      this.billing, this.subscriptions, this.plans, this.coupons := billing, subscriptions, plans, coupons;
      payments, refunded, checkouts, gateway, reports := [], {}, [], [], {};
    }

    ghost function Value(): Till
      reads this, billing, subscriptions
    {
      Till(billing.Value(),
           Pay(plans, coupons, subscriptions.accounts, checkouts, payments, gateway, reports, refunded))
    }

    // ---- coupons ----

    /** Claims one use if the coupon is active and its cap allows it. */
    method ReserveCoupon(c: nat) returns (ok: bool)
      requires c < |coupons|
      modifies this`coupons
      ensures ok == Reservable(old(coupons)[c])
      ensures coupons == if ok then Reserve(old(coupons), c) else old(coupons)
    {
      ok := coupons[c].active && (coupons[c].maxUses == 0 || coupons[c].used < coupons[c].maxUses);
      if ok {
        coupons := coupons[c := coupons[c].(used := coupons[c].used + 1)];
      }
    }

    /** Counts a use past the cap, for a payment that had lost its reservation. */
    method ForceCouponUse(c: nat)
      modifies this`coupons
      ensures coupons == ForceUse(old(coupons), c)
    {
      if c < |coupons| {
        coupons := coupons[c := coupons[c].(used := coupons[c].used + 1, forced := coupons[c].forced + 1)];
      }
    }

    method ReleaseCoupon(c: nat)
      modifies this`coupons
      ensures coupons == GiveBack(old(coupons), c)
    {
      if c < |coupons| && coupons[c].used > 0 {
        coupons := coupons[c := coupons[c].(used := coupons[c].used - 1)];
      }
    }

    // ---- checkout ----

    /** `session`: bKash opened one. `saved`: the payment row could be written. */
    method CreatePayment(user: nat, plan: nat, coupon: Option<nat>, session: bool, saved: bool, now: int)
      returns (reply: CheckoutReply)
      requires user < |subscriptions.accounts|
      modifies this
      ensures Value() == old(Value()).(pay := CheckoutCall(old(Value()).pay, user, plan, coupon, session, saved, now))
      ensures reply == CheckoutAnswer(old(Value()).pay, plan, coupon, session, saved, now)
      ensures reply == Opened <==> |payments| == |old(payments)| + 1
    {
      if plan >= |plans| {
        return PlanNotFound;
      }
      var charge := plans[plan].price;
      if coupon.Some? {
        if coupon.value >= |coupons| {
          return Refused(CouponNotFound);
        }
        var quote := ValidateCoupon(coupons[coupon.value], plan, plans[plan].price, now);
        if !quote.Price? {
          return Refused(quote);
        }
        var reserved := ReserveCoupon(coupon.value);
        if !reserved {
          return Refused(CouponExhausted);
        }
        charge := quote.amount;
      }
      ghost var started := Checkout(user, plan, charge, plans[plan].price, coupon, true);
      checkouts := checkouts + [started.(open := false)];
      assert checkouts == (old(checkouts) + [started])[|old(checkouts)| := started.(open := false)];
      if !session || !saved {
        if coupon.Some? {
          ReleaseCoupon(coupon.value);
        }
        return if session then NotSaved else GatewayFailed;
      }
      payments := payments +
        [Payment(user, plan, charge, plans[plan].price, coupon, coupon.Some?, Initiated, None, now)];
      gateway := gateway + [NotYetPaid];
      reply := Opened;
    }

    // ---- fulfilment ----

    method ExecutePayment(user: nat, p: nat, execute: Answer, query: Answer, now: int, year: nat) returns (reply: Reply)
      modifies this, billing, subscriptions
      ensures Value() == ExecuteSale(old(Value()), user, p, execute, query, now, year).after
      ensures reply == ExecuteSale(old(Value()), user, p, execute, query, now, year).reply
    {
      if p >= |payments| {
        return NotFound;
      }
      var tx := payments[p];
      if tx.user != user {
        return Forbidden;
      }
      if tx.status == Completed {
        return Ok;
      }
      if tx.status == NeedsReview {
        return AmountMismatch;
      }
      var result := execute;
      if !result.PaidInFull? && query.PaidInFull? {
        result := query;
      }
      match result
      case Unreachable => return GatewayError;
      case NotPaid =>
        MarkTerminal(p, Failed);
        return PaymentNotCompleted;
      case PaidInFull(amount) =>
        reply := Fulfil(p, amount, now, year);
    }

    /** Subscription, coupon use, payment row, revenue and invoice, all or none. */
    method Fulfil(p: nat, amount: Option<int>, now: int, year: nat) returns (reply: Reply)
      modifies this, billing, subscriptions
      ensures Value() == Settle(old(Value()), p, amount, now, year).after
      ensures reply == Settle(old(Value()), p, amount, now, year).reply
    {
      if p >= |payments| {
        return NotFound;
      }
      var tx := payments[p];
      if tx.status == Completed {
        return Ok;
      }
      if amount.Some? && amount.value != tx.amount {
        payments := payments[p := tx.(status := NeedsReview)];
        return AmountMismatch;
      }
      if tx.plan >= |plans| || tx.user >= |subscriptions.accounts| {
        return NotFound;
      }
      var users, uses, rows := subscriptions.accounts, coupons, payments;
      var row := subscriptions.GrantSubscription(tx.user, now, plans[tx.plan], Some(p));
      if tx.coupon.Some? && !tx.reserved {
        ForceCouponUse(tx.coupon.value);
      }
      payments := payments[p := tx.(status := Completed, subscription := Some(row), reserved := tx.coupon.Some?)];
      var booked := billing.RecordSubscriptionPayment(p, tx, year);
      if !booked {
        subscriptions.Rollback(users);
        coupons, payments := uses, rows;
        return LedgerRefused;
      }
      reply := Ok;
    }

    /** Only an initiated payment is closed, and it hands its reserved use back. */
    method MarkTerminal(p: nat, status: TxStatus)
      modifies this`coupons, this`payments
      ensures Value() == old(Value()).(pay := Close(old(Value()).pay, p, status))
    {
      if p >= |payments| || payments[p].status != Initiated {
        return;
      }
      var tx := payments[p];
      if tx.coupon.Some? && tx.reserved {
        ReleaseCoupon(tx.coupon.value);
      }
      payments := payments[p := tx.(status := status, reserved := false)];
    }

    method CancelPayment(user: nat, p: nat) returns (reply: Reply)
      modifies this`coupons, this`payments
      ensures Value() == CancelSale(old(Value()), user, p).after && reply == CancelSale(old(Value()), user, p).reply
    {
      if p >= |payments| {
        return NotFound;
      }
      if payments[p].user != user {
        return Forbidden;
      }
      if payments[p].status != Initiated {
        return Ok;
      }
      MarkTerminal(p, Abandoned);
      reply := Ok;
    }

    method ReconcilePending(now: int, minAge: int, cancelAfter: int, batch: nat, answers: nat -> Answer, year: nat)
      returns (stats: Stats, ghost picked: seq<nat>)
      modifies this, billing, subscriptions
      ensures picked == Pick(|old(payments)|, batch, StalePayments(old(payments), now - minAge))
      ensures SalePass(Value(), stats) == ReconcileSales(old(Value()), picked, now - cancelAfter, answers, now, year)
    {
      var rows := payments;
      ghost var start := Value();
      var pending := Pick(|rows|, batch, StalePayments(rows, now - minAge));
      picked := pending;
      stats := Stats(0, 0, 0, 0);
      for k := 0 to |pending|
        invariant SalePass(Value(), stats) == ReconcileSales(start, pending[..k], now - cancelAfter, answers, now, year)
      {
        var p := pending[k];
        assert p in pending;
        assert pending[..k + 1][..|pending[..k + 1]| - 1] == pending[..k];
        stats := stats.(checked := stats.checked + 1);
        match answers(p)
        case Unreachable => stats := stats.(errors := stats.errors + 1);
        case PaidInFull(amount) =>
          var reply := Fulfil(p, amount, now, year);
          if reply != Ok {
            stats := stats.(errors := stats.errors + 1);
          } else {
            stats := stats.(recovered := stats.recovered + 1);
          }
        case NotPaid =>
          if rows[p].createdAt < now - cancelAfter {
            MarkTerminal(p, Abandoned);
            stats := stats.(cancelled := stats.cancelled + 1);
          }
      }
      assert pending[..|pending|] == pending;
    }

    // ---- refunds ----

    method EndSubscription(user: nat, row: Option<nat>, now: int)
      modifies subscriptions
      ensures subscriptions.accounts == Ended(old(subscriptions.accounts), user, row, now)
    {
      if user < |subscriptions.accounts| {
        if row.Some? {
          subscriptions.MarkRowRefunded(user, row.value, now);
        }
        subscriptions.RecomputePro(user, now);
      }
    }

    /** Reverses the revenue, voids the invoice, ends the subscription, recomputes Pro, and hands the
        coupon use of a completed payment back. The refund row comes last. */
    method RefundSubscriptionPayment(p: nat, reference: string, now: int) returns (reply: Reply)
      modifies this, billing, subscriptions
      ensures Value() == RefundPayment(old(Value()), p, reference, now).after
      ensures reply == RefundPayment(old(Value()), p, reference, now).reply
    {
      if Blank(reference) {
        return NotRefundable;
      }
      if p >= |payments| {
        return NotFound;
      }
      var tx := payments[p];
      if tx.status == Refunded {
        return AlreadyRefunded;
      }
      if tx.status != Completed && tx.status != NeedsReview {
        return NotRefundable;
      }
      var books, users, uses, rows := billing.Value(), subscriptions.accounts, coupons, payments;
      var reversed := billing.ReverseJournals(OfPayment(p), {SubscriptionPayment});
      if !reversed {
        billing.Rollback(books);
        return LedgerRefused;
      }
      EndSubscription(tx.user, tx.subscription, now);
      billing.VoidInvoice(OfPayment(p));
      if tx.coupon.Some? && tx.status == Completed {
        ReleaseCoupon(tx.coupon.value);
      }
      payments := payments[p := tx.(status := Refunded)];
      if p in refunded {
        billing.Rollback(books);
        subscriptions.Rollback(users);
        coupons, payments := uses, rows;
        return DuplicateRefund;
      }
      refunded := refunded + {p};
      reply := Ok;
    }
  }
}
