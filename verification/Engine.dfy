/** The whole money engine: one state, every step any client, admin, job or bKash can make, and runs
    that interleave them in any order. */
module Engine {
  import opened Sums
  import opened Ledger
  import opened Invoices
  import opened Subscriptions
  import opened Shop
  import opened MarketSteps
  import opened MarketLaws
  import opened TillSteps
  import opened TillLaws

  datatype State = State(books: Books, shop: Shop, pay: Pay)

  /** One atomic step each: a transaction, an unlocked write, or something bKash does. Reads that a
      later step acts on (an order picked for expiry, a payment picked for reconciling, an answer of
      bKash) are not steps: a step may come with any such stale choice. */
  datatype Step =
    | Place(draft: Order)
    | Move(order: nat, to: OrderStatus)
    | BuyerCancels(user: nat, order: nat)
    | OpenOrderTx(order: nat)
    | BuyerPays(tx: nat, taken: Option<int>)
    | BkashConfirms(tx: nat, readable: bool)
    | SettleOrderTx(tx: nat, paid: Option<int>)
    | CloseOrderTx(tx: nat, closed: TxStatus)
    | Release(order: nat)
    | BeginRequest(merchant: nat, amount: int)
    | CommitRequest(merchant: nat)
    | DropRequest(merchant: nat)
    | SettleRequest(payout: nat, settled: PayoutStatus)
    | RefundBuyer(order: nat, reference: string)
    | Begin(user: nat, plan: nat, coupon: Option<nat>)
    | Abort(checkout: nat)
    | Persist(checkout: nat)
    | CustomerPays(payment: nat, taken: Option<int>)
    | BkashAnswers(payment: nat, readable: bool)
    | Fulfil(payment: nat, paid: Option<int>)
    | Terminate(payment: nat, closed: TxStatus)
    | RefundUser(payment: nat, reference: string)
    | OnAccount(user: nat, event: Event)

  /** A step at a time; `commits` is false when the database undoes it. */
  datatype Tick = Tick(step: Step, now: int, year: nat, commits: bool)

  /** What no caller can get wrong: checkout computes the order's total, fulfilment acts on an answer
      bKash gave, and statuses are written by the code. */
  predicate Possible(s: State, step: Step) {
    match step
    case Place(draft) => CheckoutOrder(draft)
    case SettleOrderTx(x, paid) => (x, paid) in s.shop.answers
    case CloseOrderTx(_, closed) => closed in {Failed, Abandoned}
    case SettleRequest(_, settled) => settled in {Transferred, Rejected}
    case Fulfil(p, paid) => (p, paid) in s.pay.reports
    case Terminate(_, closed) => closed in {Failed, Abandoned}
    case _ => true
  }

  predicate MarketStep(step: Step) {
    step.Place? || step.Move? || step.BuyerCancels? || step.OpenOrderTx? || step.BuyerPays? || step.BkashConfirms?
    || step.SettleOrderTx? || step.CloseOrderTx? || step.Release? || step.BeginRequest? || step.CommitRequest?
    || step.DropRequest? || step.SettleRequest? || step.RefundBuyer?
  }

  function MarketAfter(m: Market, t: Tick): Market
    requires MarketStep(t.step)
  {
    match t.step
    case Place(draft) => PlaceOrder(m, draft).after
    case Move(i, to) => Transition(m, i, to).after
    case BuyerCancels(user, i) => CancelByBuyer(m, user, i).after
    case OpenOrderTx(i) => OpenOrderPayment(m, i, t.now)
    case BuyerPays(x, taken) => PayOrderAtGateway(m, x, taken)
    case BkashConfirms(x, readable) => ConfirmOrderPayment(m, x, readable)
    case SettleOrderTx(x, paid) => SettleOrderPayment(m, x, paid, t.year).after
    case CloseOrderTx(x, closed) => CloseOrderPayment(m, x, closed)
    case Release(i) => Deliver(m, i, t.year).after
    case BeginRequest(id, amount) => BeginPayout(m, id, amount)
    case CommitRequest(id) => CommitPayout(m, id)
    case DropRequest(id) => DropPayout(m, id)
    case SettleRequest(k, settled) => SettlePayout(m, k, settled).after
    case RefundBuyer(i, reference) => RefundOrder(m, i, reference).after
  }

  function TillAfter(t: Till, k: Tick): Till
    requires !MarketStep(k.step)
  {
    match k.step
    case Begin(user, plan, coupon) => t.(pay := BeginCheckout(t.pay, user, plan, coupon, k.now))
    case Abort(c) => t.(pay := AbortCheckout(t.pay, c))
    case Persist(c) => t.(pay := PersistCheckout(t.pay, c, k.now))
    case CustomerPays(p, taken) => t.(pay := PayAtGateway(t.pay, p, taken))
    case BkashAnswers(p, readable) => t.(pay := AnswerCompleted(t.pay, p, readable))
    case Fulfil(p, paid) => Settle(t, p, paid, k.now, k.year).after
    case Terminate(p, closed) => t.(pay := Close(t.pay, p, closed))
    case RefundUser(p, reference) => RefundPayment(t, p, reference, k.now).after
    case OnAccount(u, e) => t.(pay := AccountEvent(t.pay, u, Timed(k.now, e)))
  }

  function After(s: State, t: Tick): State {
    if !t.commits || !Possible(s, t.step) then s
    else if MarketStep(t.step) then
      var m := MarketAfter(Market(s.books, s.shop), t);
      State(m.books, m.shop, s.pay)
    else
      var x := TillAfter(Till(s.books, s.pay), t);
      State(x.books, s.shop, x.pay)
  }

  function RunFrom(s: State, run: seq<Tick>): State {
    if run == [] then s else After(RunFrom(s, run[..|run| - 1]), run[|run| - 1])
  }

  // ---- each half leaves the other half's journals and invoices alone ----

  /** `subs` says which half stays as it was: true for subscriptions, false for the marketplace. */
  ghost predicate HalfKept(before: Books, after: Books, subs: bool) {
    && before.journals <= after.journals
    && (forall j | j in after.journals[|before.journals|..] :: j.key.source.OfPayment? != subs)
    && (forall src: Source | src.OfPayment? == subs ::
          HasInvoice(after.invoices, src) <==> HasInvoice(before.invoices, src))
  }

  lemma HalfKeptKeys(before: Books, after: Books, subs: bool)
    requires HalfKept(before, after, subs)
    ensures forall k: Key | k.source.OfPayment? == subs :: k in Keys(after.journals) <==> k in Keys(before.journals)
    ensures Keys(before.journals) <= Keys(after.journals)
  {
    var n := |before.journals|;
    forall x | n <= x < |after.journals| ensures after.journals[x].key.source.OfPayment? != subs {
      assert after.journals[x] == after.journals[n..][x - n];
    }
    forall k: Key | k.source.OfPayment? == subs && k in Keys(after.journals) ensures k in Keys(before.journals) {
      var x := KeyOfIndex(after.journals, k);
      assert after.journals[x] in before.journals;
    }
  }

  lemma HalfKeptShape(before: Books, after: Books, subs: bool, net: (Key, Account) -> int)
    requires HalfKept(before, after, subs) && Shaped(before.journals, subs, net)
    ensures Shaped(after.journals, subs, net)
  {
  }

  lemma IssueElsewhere(b: Books, bill: Bill, year: nat, subs: bool)
    requires bill.source.OfPayment? != subs
    ensures HalfKept(b, IssueInvoice(b, bill, year), subs)
  {
  }

  lemma VoidElsewhere(b: Books, journals: seq<Journal>, source: Source, subs: bool)
    requires InvoiceInv(b.invoices, b.counters) && OnlyAdds(b.journals, journals, source) && source.OfPayment? != subs
    ensures HalfKept(b, b.(journals := journals, invoices := VoidInvoices(b.invoices, source)), subs)
  {
  }

  lemma RecordElsewhere(b: Books, i: nat, o: Order, year: nat)
    requires RecordOrderPayment(b, i, o, year).Some?
    ensures HalfKept(b, RecordOrderPayment(b, i, o, year).value, true)
  {
  }

  lemma {:induction false} DeliverElsewhere(m: Market, i: nat, year: nat)
    ensures HalfKept(m.books, Deliver(m, i, year).after.books, true)
  {
    if i < |m.shop.orders| && BooksBeforeRelease(m.books, i, m.shop.orders[i], year).Some? {
      var o := m.shop.orders[i];
      var b := BooksBeforeRelease(m.books, i, o, year).value;
      if o.payBy == Bkash {
        if PayKey(i) !in Keys(m.books.journals) {
          RecordElsewhere(m.books, i, o, year);
        }
      } else {
        IssueElsewhere(m.books, OrderBill(i, o), year, true);
      }
      assert HalfKept(m.books, b, true);
      PostElsewhere(m.books, b, ReleaseKey(i), DeliveryLines(m.shop, o), true);
    }
  }

  lemma PostElsewhere(before: Books, b: Books, key: Key, lines: seq<Line>, subs: bool)
    requires HalfKept(before, b, subs) && key.source.OfPayment? != subs
    ensures HalfKept(before, b.(journals := Post(b.journals, key, lines)), subs)
  {
  }

  lemma {:induction false} MarketLeavesTill(m: Market, t: Tick)
    requires MarketInv(m) && MarketStep(t.step) && (t.step.SettleRequest? ==> t.step.settled != Requested)
    ensures HalfKept(m.books, MarketAfter(m, t).books, true)
  {
    var books := MarketAfter(m, t).books;
    if books != m.books {
      match t.step
      case SettleOrderTx(x, paid) =>
        var i := m.shop.orderTxs[x].order;
        RecordElsewhere(m.books, i, m.shop.orders[i], t.year);
      case Release(i) => DeliverElsewhere(m, i, t.year);
      case CommitRequest(id) => CommitKeepsInv(m, id);
      case SettleRequest(k, settled) => SettlePayoutKeepsInv(m, k, settled);
      case RefundBuyer(i, reference) => RefundElsewhere(m, i, reference);
    }
  }

  lemma RefundElsewhere(m: Market, i: nat, reference: string)
    requires MarketInv(m)
    ensures HalfKept(m.books, RefundOrder(m, i, reference).after.books, true)
  {
    RefundKeepsInv(m, i, reference);
    if RefundOrder(m, i, reference).reply == Ok {
      VoidElsewhere(m.books, RefundOrder(m, i, reference).after.books.journals, OfOrder(i), true);
    }
  }

  lemma SettleElsewhere(x: Till, p: nat, paid: Option<int>, now: int, year: nat)
    ensures HalfKept(x.books, Settle(x, p, paid, now, year).after.books, false)
  {
    if Settle(x, p, paid, now, year).after.books != x.books {
      var pm := x.pay.payments[p];
      var posted := x.books.(journals := Post(x.books.journals, SubKey(p), SaleLines(pm)));
      IssueElsewhere(posted, SaleBill(p, pm), year, false);
    }
  }

  lemma RefundSaleElsewhere(x: Till, p: nat, reference: string, now: int)
    requires BooksOK(x)
    ensures HalfKept(x.books, RefundPayment(x, p, reference, now).after.books, false)
  {
    RefundKeepsBooks(x, p, reference, now);
    if RefundPayment(x, p, reference, now).reply == Ok {
      VoidElsewhere(x.books, RefundPayment(x, p, reference, now).after.books.journals, OfPayment(p), false);
    }
  }

  lemma TillLeavesMarket(x: Till, t: Tick)
    requires BooksOK(x) && !MarketStep(t.step)
    ensures HalfKept(x.books, TillAfter(x, t).books, false)
  {
    match t.step
    case Fulfil(p, paid) => SettleElsewhere(x, p, paid, t.now, t.year);
    case RefundUser(p, reference) => RefundSaleElsewhere(x, p, reference, t.now);
    case _ =>
  }

  lemma BooksSurvive(x: Till, b: Books)
    requires BooksOK(x) && HalfKept(x.books, b, true) && LedgerInv(b.journals) && InvoiceInv(b.invoices, b.counters)
    ensures BooksOK(Till(b, x.pay))
  {
    HalfKeptKeys(x.books, b, true);
    HalfKeptShape(x.books, b, true, PayNet(x.pay));
  }

  lemma TillSurvives(x: Till, b: Books)
    requires TillInv(x) && HalfKept(x.books, b, true) && LedgerInv(b.journals) && InvoiceInv(b.invoices, b.counters)
    ensures TillInv(Till(b, x.pay))
  {
    HalfKeptKeys(x.books, b, true);
    BooksSurvive(x, b);
    var keys, keys' := Keys(x.books.journals), Keys(b.journals);
    forall p: nat | p < |x.pay.payments|
      ensures PaymentOK(x.pay.payments[p], SubKey(p) in keys', SubRefundKey(p) in keys',
                        HasInvoice(b.invoices, OfPayment(p)), p in x.pay.refunded)
    {
      assert PaymentOK(x.pay.payments[p], SubKey(p) in keys, SubRefundKey(p) in keys,
                       HasInvoice(x.books.invoices, OfPayment(p)), p in x.pay.refunded);
    }
  }

  predicate SaleKey(k: Key) {
    k.kind in {SubscriptionPayment, RefundOf(SubscriptionPayment)}
  }

  lemma MarketSurvives(m: Market, b: Books)
    requires MarketInv(m) && HalfKept(m.books, b, false) && LedgerInv(b.journals) && InvoiceInv(b.invoices, b.counters)
    requires forall k | k in Keys(b.journals) && k.source.OfPayment? :: SaleKey(k)
    ensures MarketInv(Market(b, m.shop))
  {
    HalfKeptKeys(m.books, b, false);
    HalfKeptShape(m.books, b, false, ShopNet(m.shop));
    var keys, keys' := Keys(m.books.journals), Keys(b.journals);
    forall k | k in keys' ensures KnownKey(k, |m.shop.orders|, |m.shop.payouts|) {
      assert !k.source.OfPayment? ==> k in keys;
    }
    OrdersStay(keys, keys', m.shop.orders, m.shop.refunded);
    PayoutsStay(keys, keys', m.shop.payouts);
    forall i: nat | i < |m.shop.orderTxs| ensures TxOK(m.shop.orderTxs[i], keys', m.shop.orders) {
      assert TxOK(m.shop.orderTxs[i], keys, m.shop.orders);
    }
  }

  // ---- the invariant of every run ----

  /** Marketplace rows and all money. */
  ghost predicate MoneyInv(s: State) {
    MarketInv(Market(s.books, s.shop)) && BooksOK(Till(s.books, s.pay))
  }

  /** And what each subscription payment brought about. */
  ghost predicate StateInv(s: State) {
    MoneyInv(s) && TillInv(Till(s.books, s.pay))
  }

  /** A fulfilment that finds its payment already refunded after having been granted. */
  predicate Regrants(s: State, t: Tick) {
    t.commits && t.step.Fulfil? && (t.step.payment, t.step.paid) in s.pay.reports && HitsRefunded(s.pay, t.step.payment)
  }

  lemma MarketAfterKeepsInv(m: Market, t: Tick)
    requires MarketInv(m) && MarketStep(t.step)
    requires t.step.Place? ==> CheckoutOrder(t.step.draft)
    requires t.step.CloseOrderTx? ==> t.step.closed != Completed
    requires t.step.SettleRequest? ==> t.step.settled != Requested
    ensures MarketInv(MarketAfter(m, t)) && Extends(m.shop, MarketAfter(m, t).shop)
  {
    match t.step
    case Place(draft) => PlaceKeepsInv(m, draft);
    case Move(i, to) => TransitionKeepsInv(m, i, to);
    case BuyerCancels(user, i) => CancelKeepsInv(m, user, i);
    case OpenOrderTx(i) => OpenKeepsInv(m, i, t.now);
    case SettleOrderTx(x, paid) => SettleKeepsInv(m, x, paid, t.year);
    case CloseOrderTx(x, closed) => CloseKeepsInv(m, x, closed);
    case Release(i) => DeliverKeepsInv(m, i, t.year);
    case CommitRequest(id) => CommitKeepsInv(m, id);
    case SettleRequest(k, settled) => SettlePayoutKeepsInv(m, k, settled);
    case RefundBuyer(i, reference) => RefundKeepsInv(m, i, reference);
    case _ => OutsideStep(m, t);
  }

  lemma OutsideStep(m: Market, t: Tick)
    requires MarketInv(m) && (t.step.BuyerPays? || t.step.BkashConfirms? || t.step.BeginRequest? || t.step.DropRequest?)
    ensures MarketInv(MarketAfter(m, t)) && Extends(m.shop, MarketAfter(m, t).shop)
  {
    OutsideKeepsInv(m, MarketAfter(m, t).shop);
  }

  lemma CheckoutKeepsInv(x: Till, t: Tick)
    requires TillInv(x)
             && (t.step.Begin? || t.step.Abort? || t.step.Persist? || t.step.CustomerPays? || t.step.BkashAnswers?)
    ensures TillInv(TillAfter(x, t))
  {
    match t.step
    case Begin(user, plan, coupon) => BeginKeepsTill(x, user, plan, coupon, t.now);
    case Abort(c) => AbortKeepsTill(x, c);
    case Persist(c) => PersistKeepsTill(x, c, t.now);
    case CustomerPays(p, taken) => GatewayKeepsTill(x, p, taken);
    case BkashAnswers(p, readable) => AnswerKeepsTill(x, p, readable);
  }

  lemma TillAfterKeepsInvIff(x: Till, t: Tick)
    requires TillInv(x) && !MarketStep(t.step)
    requires t.step.Fulfil? ==> (t.step.payment, t.step.paid) in x.pay.reports
    requires t.step.Terminate? ==> t.step.closed in {Failed, Abandoned}
    ensures TillInv(TillAfter(x, t)) <==> !(t.step.Fulfil? && HitsRefunded(x.pay, t.step.payment))
  {
    match t.step
    case Fulfil(p, paid) => SettleKeepsTillIff(x, p, paid, t.now, t.year);
    case Terminate(p, closed) => CloseKeepsTill(x, p, closed);
    case RefundUser(p, reference) => RefundKeepsTill(x, p, reference, t.now);
    case OnAccount(u, e) => AccountEventKeepsTill(x, u, Timed(t.now, e));
    case _ => CheckoutKeepsInv(x, t);
  }

  /** No step of the subscription half harms the books, a fulfilment of a refunded payment included. */
  lemma {:induction false} TillKeepsBooks(x: Till, t: Tick)
    requires BooksOK(x) && !MarketStep(t.step)
    ensures BooksOK(TillAfter(x, t))
  {
    if t.step.Fulfil? {
      SettleKeepsBooks(x, t.step.payment, t.step.paid, t.now, t.year);
    } else if t.step.RefundUser? {
      RefundKeepsBooks(x, t.step.payment, t.step.reference, t.now);
    } else {
      QuietKeepsBooks(x.books, x.pay, TillAfter(x, t).pay);
    }
  }

  lemma TillWritesSales(x: Till, t: Tick)
    requires BooksOK(x) && !MarketStep(t.step)
    ensures forall k | k in Keys(TillAfter(x, t).books.journals) :: k in Keys(x.books.journals) || SaleKey(k)
  {
    if TillAfter(x, t).books != x.books {
      if t.step.Fulfil? {
        SaleFacts(x, t.step.payment, t.year);
      } else {
        ReversedSale(x, t.step.payment);
      }
    }
  }

  lemma MarketThroughTill(m: Market, x: Till, t: Tick)
    requires MarketInv(m) && BooksOK(x) && x.books == m.books && !MarketStep(t.step)
    ensures MarketInv(Market(TillAfter(x, t).books, m.shop))
  {
    TillLeavesMarket(x, t);
    TillKeepsBooks(x, t);
    TillWritesSales(x, t);
    forall k | k in Keys(TillAfter(x, t).books.journals) && k.source.OfPayment? ensures SaleKey(k) {
      assert k in Keys(m.books.journals) ==> KnownKey(k, |m.shop.orders|, |m.shop.payouts|);
    }
    MarketSurvives(m, TillAfter(x, t).books);
  }

  /** The money is always right: every step, aborted or not, with no exception. */
  lemma {:induction false} StepKeepsMoney(s: State, t: Tick)
    requires MoneyInv(s)
    ensures MoneyInv(After(s, t)) && Extends(s.shop, After(s, t).shop)
  {
    if t.commits && Possible(s, t.step) {
      if MarketStep(t.step) {
        MarketAfterKeepsInv(Market(s.books, s.shop), t);
        MarketLeavesTill(Market(s.books, s.shop), t);
        BooksSurvive(Till(s.books, s.pay), After(s, t).books);
      } else {
        TillKeepsBooks(Till(s.books, s.pay), t);
        MarketThroughTill(Market(s.books, s.shop), Till(s.books, s.pay), t);
      }
    }
  }

  lemma {:induction false} EveryRunKeepsMoney(s: State, run: seq<Tick>)
    requires MoneyInv(s)
    ensures MoneyInv(RunFrom(s, run))
  {
    if run != [] {
      EveryRunKeepsMoney(s, run[..|run| - 1]);
      StepKeepsMoney(RunFrom(s, run[..|run| - 1]), run[|run| - 1]);
    }
  }

  /** Subscriptions take effect exactly once, but for one step: a fulfilment that grants a refunded payment
      again breaks that, and nothing else does. */
  lemma StepKeepsInvIff(s: State, t: Tick)
    requires StateInv(s)
    ensures StateInv(After(s, t)) <==> !Regrants(s, t)
  {
    StepKeepsMoney(s, t);
    if t.commits && Possible(s, t.step) {
      if MarketStep(t.step) {
        MarketLeavesTill(Market(s.books, s.shop), t);
        TillSurvives(Till(s.books, s.pay), After(s, t).books);
      } else {
        TillAfterKeepsInvIff(Till(s.books, s.pay), t);
      }
    }
  }

  ghost predicate NeverRegrants(s: State, run: seq<Tick>) {
    forall i | 0 <= i < |run| :: !Regrants(RunFrom(s, run[..i]), run[i])
  }

  lemma RunPrefix(s: State, run: seq<Tick>)
    requires NeverRegrants(s, run) && run != []
    ensures NeverRegrants(s, run[..|run| - 1])
    ensures !Regrants(RunFrom(s, run[..|run| - 1]), run[|run| - 1])
  {
    var rest := run[..|run| - 1];
    forall i | 0 <= i < |rest| ensures !Regrants(RunFrom(s, rest[..i]), rest[i]) {
      assert rest[..i] == run[..i];
    }
  }

  /** All invariants hold after every run that fulfils no refunded payment. */
  lemma {:induction false} EveryRunKeepsInv(s: State, run: seq<Tick>)
    requires StateInv(s) && NeverRegrants(s, run)
    ensures StateInv(RunFrom(s, run))
  {
    if run != [] {
      RunPrefix(s, run);
      EveryRunKeepsInv(s, run[..|run| - 1]);
      StepKeepsInvIff(RunFrom(s, run[..|run| - 1]), run[|run| - 1]);
    }
  }

  /** A start: some merchants, products, plans, coupons and accounts, and no business done yet. */
  predicate Fresh(s: State) {
    && s.books == Books([], [], map[])
    && s.shop.orders == [] && s.shop.orderTxs == [] && s.shop.payouts == []
    && s.shop.refunded == {} && s.shop.reserving == map[]
    && s.shop.sessions == [] && s.shop.answers == {}
    && s.pay.checkouts == [] && s.pay.payments == [] && s.pay.gateway == []
    && s.pay.reports == {} && s.pay.refunded == {}
    && (forall c | c in s.pay.coupons :: c.used == 0 && c.forced == 0)
    && (forall acc, r | acc in s.pay.accounts && r in acc.rows :: r.origin == None)
  }

  lemma FreshIsFine(s: State)
    requires Fresh(s)
    ensures StateInv(s)
  {
  }
}
