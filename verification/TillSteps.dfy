/** What each step of the subscription payment protocol does to the tables. */
module TillSteps {
  import opened Sums
  import opened Ledger
  import opened Invoices
  import opened Coupons
  import opened Subscriptions
  import opened Shop
  import opened MarketSteps

  /** A checkout between reserving its coupon and writing its payment row (or giving up). */
  datatype Checkout = Checkout(user: nat, plan: nat, amount: int, original: int, coupon: Option<nat>, open: bool)

  datatype Payment = Payment(user: nat, plan: nat, amount: int, original: int, coupon: Option<nat>, reserved: bool,
                             status: TxStatus, subscription: Option<nat>, createdAt: int)

  /** `reports`: every "Completed" answer bKash has given, with the amount as it could be read. */
  datatype Pay = Pay(plans: seq<Plan>, coupons: seq<Coupon>, accounts: seq<Subscriber>, checkouts: seq<Checkout>,
                     payments: seq<Payment>, gateway: seq<Session>, reports: set<(nat, Option<int>)>,
                     refunded: set<nat>)

  datatype Till = Till(books: Books, pay: Pay)

  datatype TillOutcome = TillOutcome(after: Till, reply: Reply)

  function SubKey(p: nat): Key { Key(SubscriptionPayment, OfPayment(p)) }

  function SubRefundKey(p: nat): Key { Key(RefundOf(SubscriptionPayment), OfPayment(p)) }

  // ---- checkout ----

  function QuoteFor(pay: Pay, plan: nat, coupon: Option<nat>, now: int): Quote
    requires plan < |pay.plans|
  {
    if coupon.None? then Price(pay.plans[plan].price)
    else if coupon.value >= |pay.coupons| then CouponNotFound
    else ValidateCoupon(pay.coupons[coupon.value], plan, pay.plans[plan].price, now)
  }

  /** Price the plan and take one use of the coupon, if the cap still allows it. */
  function BeginCheckout(pay: Pay, user: nat, plan: nat, coupon: Option<nat>, now: int): Pay {
    if user >= |pay.accounts| || plan >= |pay.plans| then pay else
      var q := QuoteFor(pay, plan, coupon, now);
      if !q.Price? then pay
      else
        var started := Checkout(user, plan, q.amount, pay.plans[plan].price, coupon, true);
        if coupon.None? then pay.(checkouts := pay.checkouts + [started])
        else if !Reservable(pay.coupons[coupon.value]) then pay
        else pay.(coupons := Reserve(pay.coupons, coupon.value), checkouts := pay.checkouts + [started])
  }

  function ReleaseIf(coupons: seq<Coupon>, coupon: Option<nat>, held: bool): seq<Coupon> {
    if coupon.Some? && held then GiveBack(coupons, coupon.value) else coupons
  }

  /** The session could not be opened, or its row not be written: the use goes back. */
  function AbortCheckout(pay: Pay, k: nat): Pay {
    if k < |pay.checkouts| && pay.checkouts[k].open
    then pay.(coupons := ReleaseIf(pay.coupons, pay.checkouts[k].coupon, true),
              checkouts := pay.checkouts[k := pay.checkouts[k].(open := false)])
    else pay
  }

  /** The payment row takes the reservation over. */
  function PersistCheckout(pay: Pay, k: nat, now: int): Pay {
    if k < |pay.checkouts| && pay.checkouts[k].open then
      var c := pay.checkouts[k];
      pay.(checkouts := pay.checkouts[k := c.(open := false)],
           payments := pay.payments
             + [Payment(c.user, c.plan, c.amount, c.original, c.coupon, c.coupon.Some?, Initiated, None, now)],
           gateway := pay.gateway + [NotYetPaid])
    else pay
  }

  // ---- the gateway ----

  function PayAtGateway(pay: Pay, p: nat, amount: Option<int>): Pay {
    if p < |pay.gateway| && pay.gateway[p] == NotYetPaid
    then pay.(gateway := pay.gateway[p := MoneyTaken(amount)]) else pay
  }

  /** bKash answers "Completed" for a session that was paid; the amount may come garbled. */
  function AnswerCompleted(pay: Pay, p: nat, readable: bool): Pay {
    if p < |pay.gateway| && pay.gateway[p].MoneyTaken?
    then pay.(reports := pay.reports + {(p, if readable then pay.gateway[p].amount else None)})
    else pay
  }

  // ---- settling ----

  function SaleLines(pm: Payment): seq<Line> {
    TransferLines(GatewayBkash, RevenueSubs, pm.amount)
  }

  function SaleBill(p: nat, pm: Payment): Bill {
    var original := if pm.original < pm.amount then pm.amount else pm.original;
    Bill(OfPayment(p), original, original - pm.amount, pm.amount, [InvoiceLine(1, original, original)])
  }

  /** Revenue and receipt of a completed payment. None: the ledger refused. */
  function RecordSubscriptionPayment(b: Books, p: nat, pm: Payment, year: nat): Option<Books> {
    if Refused(PostStatus(b.journals, SubKey(p), SaleLines(pm))) then None
    else Some(IssueInvoice(b.(journals := Post(b.journals, SubKey(p), SaleLines(pm))), SaleBill(p, pm), year))
  }

  function WithPayment(pay: Pay, p: nat, pm: Payment): Pay
    requires p < |pay.payments|
  {
    pay.(payments := pay.payments[p := pm])
  }

  /** The tables of the payment side once payment p is granted. */
  function Granting(pay: Pay, p: nat, now: int): Pay
    requires p < |pay.payments| && pay.payments[p].user < |pay.accounts| && pay.payments[p].plan < |pay.plans|
  {
    var pm := pay.payments[p];
    var acc := pay.accounts[pm.user];
    var coupons := if pm.coupon.Some? && !pm.reserved then ForceUse(pay.coupons, pm.coupon.value) else pay.coupons;
    pay.(accounts := pay.accounts[pm.user := Grant(acc, now, pay.plans[pm.plan], Some(p))],
         coupons := coupons,
         payments :=
           pay.payments[p := pm.(status := Completed, subscription := Some(|acc.rows|), reserved := pm.coupon.Some?)])
  }

  /** The locked step that turns a confirmed payment into a subscription, revenue and an invoice. */
  function Settle(t: Till, p: nat, amount: Option<int>, now: int, year: nat): TillOutcome {
    if p >= |t.pay.payments| then TillOutcome(t, NotFound) else
      var pm := t.pay.payments[p];
      if pm.status == Completed then TillOutcome(t, Ok)
      else if amount.Some? && amount.value != pm.amount then
        TillOutcome(t.(pay := WithPayment(t.pay, p, pm.(status := NeedsReview))), AmountMismatch)
      else if pm.plan >= |t.pay.plans| || pm.user >= |t.pay.accounts| then TillOutcome(t, NotFound)
      else match RecordSubscriptionPayment(t.books, p, pm, year)
           case None => TillOutcome(t, LedgerRefused)
           case Some(books) => TillOutcome(Till(books, Granting(t.pay, p, now)), Ok)
  }

  /** Close a payment that is still initiated and hand its coupon use back. */
  function Close(pay: Pay, p: nat, to: TxStatus): Pay {
    if p < |pay.payments| && pay.payments[p].status == Initiated then
      var pm := pay.payments[p];
      WithPayment(pay.(coupons := ReleaseIf(pay.coupons, pm.coupon, pm.reserved)), p,
                  pm.(status := to, reserved := false))
    else pay
  }

  // ---- refunds ----

  /** The refunded row is marked, and the user's Pro fields derived again. */
  function Ended(accounts: seq<Subscriber>, user: nat, row: Option<nat>, now: int): seq<Subscriber> {
    if user >= |accounts| then accounts else
      var marked := if row.Some? then MarkRefunded(accounts[user], row.value, now) else accounts[user];
      accounts[user := Recompute(marked, now)]
  }

  function RefundedPayment(t: Till, p: nat, now: int): Till
    requires p < |t.pay.payments|
  {
    var pm := t.pay.payments[p];
    Till(t.books.(journals := Reverse(t.books.journals, OfPayment(p), {SubscriptionPayment}),
                  invoices := VoidInvoices(t.books.invoices, OfPayment(p))),
         t.pay.(accounts := Ended(t.pay.accounts, pm.user, pm.subscription, now),
                coupons := ReleaseIf(t.pay.coupons, pm.coupon, pm.status == Completed),
                payments := t.pay.payments[p := pm.(status := Refunded)],
                refunded := t.pay.refunded + {p}))
  }

  function RefundPayment(t: Till, p: nat, reference: string, now: int): TillOutcome {
    if Blank(reference) then TillOutcome(t, NotRefundable)
    else if p >= |t.pay.payments| then TillOutcome(t, NotFound)
    else
      var status := t.pay.payments[p].status;
      if status == Refunded then TillOutcome(t, AlreadyRefunded)
      else if status != Completed && status != NeedsReview then TillOutcome(t, NotRefundable)
      else if ReversalRefused(t.books.journals, OfPayment(p), {SubscriptionPayment}) then TillOutcome(t, LedgerRefused)
      else if p in t.pay.refunded then TillOutcome(t, DuplicateRefund)
      else TillOutcome(RefundedPayment(t, p, now), Ok)
  }

  // ---- the users' other subscription events ----

  /** Admin grants, direct creations, sweeps and overrides; a payment is never their origin. */
  function AccountEvent(pay: Pay, u: nat, e: Timed): Pay {
    if u < |pay.accounts| && (e.event.Granted? ==> e.event.origin == None)
    then pay.(accounts := pay.accounts[u := Apply(pay.accounts[u], e)]) else pay
  }
}
