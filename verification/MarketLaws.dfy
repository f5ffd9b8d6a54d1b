/** What every marketplace transaction keeps, and why. */
module MarketLaws {
  import opened Sums
  import opened Ledger
  import opened Commission
  import opened Release
  import opened Invoices
  import opened Shop
  import opened MarketSteps

  // ---- what the journal under each key amounts to ----

  function TransferNet(from: Account, to: Account, amount: int, a: Account): int {
    (if a == from then -amount else 0) + (if a == to then amount else 0)
  }

  function KeyNet(shop: Shop, k: Key, a: Account): int
    decreases k.kind
  {
    match k.kind
    case RefundOf(reversed) => -KeyNet(shop, Key(reversed, k.source), a)
    case OrderPayment =>
      if k.source.OfOrder? && k.source.order < |shop.orders|
      then TransferNet(GatewayBkash, OrdersEscrow, shop.orders[k.source.order].total, a) else 0
    case OrderRelease =>
      if k.source.OfOrder? && k.source.order < |shop.orders|
      then
        var o := shop.orders[k.source.order];
        ReleaseNet(o.payBy == Bkash, Platform(shop.merchants), o.items, a)
      else 0
    case PayoutRequest =>
      if k.source.OfPayout? && k.source.payout < |shop.payouts|
      then
        var p := shop.payouts[k.source.payout];
        TransferNet(MerchantAccount(p.merchant), PayoutsPending, p.amount, a)
      else 0
    case PayoutPaid =>
      if k.source.OfPayout? && k.source.payout < |shop.payouts|
      then TransferNet(PayoutsPending, CashOut, shop.payouts[k.source.payout].amount, a) else 0
    case PayoutRejected =>
      if k.source.OfPayout? && k.source.payout < |shop.payouts|
      then
        var p := shop.payouts[k.source.payout];
        TransferNet(PayoutsPending, MerchantAccount(p.merchant), p.amount, a)
      else 0
    case SubscriptionPayment => 0
  }

  function ShopNet(shop: Shop): (Key, Account) -> int {
    (k: Key, a: Account) => KeyNet(shop, k, a)
  }

  lemma TransferFacts(from: Account, to: Account, amount: int, a: Account)
    requires amount >= 0
    ensures Sound(TransferLines(from, to, amount))
    ensures Net(TransferLines(from, to, amount), a) == TransferNet(from, to, amount, a)
  {
    TwoLines(Line(from, amount, 0), Line(to, 0, amount), a);
  }

  // ---- invariants, row by row ----

  /** How an order's status, its journals and its refund row hang together. */
  predicate OrderOK(o: Order, paid: bool, released: bool, payBack: bool, releaseBack: bool, refunded: bool) {
    && Counted(o.items)
    && o.total == ItemsGross(o.items) + o.delivery
    && (paid ==> o.total >= 0)
    && (o.payBy == CashOnDelivery ==> !paid && !refunded)
    && (o.payBy == Bkash && released ==> paid)
    && (if refunded then o.status == Cancelled && payBack == paid && releaseBack == released
        else !payBack && !releaseBack)
    && (released && !refunded ==> o.status == Delivered)
    && (o.status == PendingPayment ==> !paid && !released)
    && (o.status == Delivered ==> Delivered in o.events)
    && (Delivered in o.events ==> o.status == Delivered || (o.status == Cancelled && refunded))
  }

  ghost predicate OrdersOK(keys: set<Key>, orders: seq<Order>, refunded: set<nat>) {
    && (forall i: nat | i < |orders| ::
          OrderOK(orders[i], PayKey(i) in keys, ReleaseKey(i) in keys, PayRefundKey(i) in keys,
                  ReleaseRefundKey(i) in keys, i in refunded))
    && (forall i | i in refunded :: i < |orders|)
  }

  predicate PayoutOK(p: Payout, requested: bool, transferred: bool, rejected: bool) {
    p.amount > 0 && requested && transferred == (p.status == Transferred) && rejected == (p.status == Rejected)
  }

  ghost predicate PayoutsOK(keys: set<Key>, payouts: seq<Payout>) {
    forall k: nat | k < |payouts| ::
      PayoutOK(payouts[k], Key(PayoutRequest, OfPayout(k)) in keys, Key(PayoutPaid, OfPayout(k)) in keys,
               Key(PayoutRejected, OfPayout(k)) in keys)
  }

  /** A completed payment row has its journal; each row charges its order's total. */
  predicate TxOK(tx: OrderTx, keys: set<Key>, orders: seq<Order>) {
    && tx.order < |orders| && orders[tx.order].payBy == Bkash && tx.amount == orders[tx.order].total
    && (tx.status == Completed ==> PayKey(tx.order) in keys)
  }

  ghost predicate TxsOK(txs: seq<OrderTx>, keys: set<Key>, orders: seq<Order>) {
    && (forall t: nat | t < |txs| :: TxOK(txs[t], keys, orders))
    && (forall s: nat, t: nat | s < t < |txs| && txs[s].order == txs[t].order ::
        !(txs[s].status == Completed && txs[t].status == Completed))
  }

  predicate KnownKey(k: Key, orders: nat, payouts: nat) {
    match k.source
    case OfPayment(_) => k.kind in {SubscriptionPayment, RefundOf(SubscriptionPayment)}
    case OfOrder(i) =>
      i < orders && k.kind in {OrderPayment, OrderRelease, RefundOf(OrderPayment), RefundOf(OrderRelease)}
    case OfPayout(p) => p < payouts && k.kind in {PayoutRequest, PayoutPaid, PayoutRejected}
  }

  ghost predicate KeysKnown(keys: set<Key>, orders: nat, payouts: nat) {
    forall k | k in keys :: KnownKey(k, orders, payouts)
  }

  ghost predicate MarketInv(m: Market) {
    var keys := Keys(m.books.journals);
    && LedgerInv(m.books.journals)
    && InvoiceInv(m.books.invoices, m.books.counters)
    && KeysKnown(keys, |m.shop.orders|, |m.shop.payouts|)
    && Shaped(m.books.journals, false, ShopNet(m.shop))
    && OrdersOK(keys, m.shop.orders, m.shop.refunded)
    && PayoutsOK(keys, m.shop.payouts)
    && TxsOK(m.shop.orderTxs, keys, m.shop.orders)
    && (forall id | id in m.shop.reserving :: m.shop.reserving[id] >= MIN_PAYOUT)
  }

  /** What the ledger relies on never changes about a row: what was ordered at what terms, and what
      was asked out by whom. */
  ghost predicate Extends(before: Shop, after: Shop) {
    && after.merchants == before.merchants
    && |before.orders| <= |after.orders|
    && (forall i | 0 <= i < |before.orders| ::
          after.orders[i].items == before.orders[i].items && after.orders[i].total == before.orders[i].total
          && after.orders[i].payBy == before.orders[i].payBy)
    && |before.payouts| <= |after.payouts|
    && (forall p | 0 <= p < |before.payouts| ::
          && after.payouts[p].merchant == before.payouts[p].merchant
          && after.payouts[p].amount == before.payouts[p].amount)
  }

  lemma {:induction false} KeyNetStays(before: Shop, after: Shop, k: Key, a: Account)
    requires Extends(before, after)
    requires k.source.OfOrder? ==> k.source.order < |before.orders|
    requires k.source.OfPayout? ==> k.source.payout < |before.payouts|
    ensures KeyNet(after, k, a) == KeyNet(before, k, a)
    decreases k.kind
  {
    if k.kind.RefundOf? {
      KeyNetStays(before, after, Key(k.kind.reversed, k.source), a);
    }
  }

  lemma ShapeStays(journals: seq<Journal>, before: Shop, after: Shop)
    requires Shaped(journals, false, ShopNet(before)) && Extends(before, after)
    requires KeysKnown(Keys(journals), |before.orders|, |before.payouts|)
    ensures Shaped(journals, false, ShopNet(after))
  {
    forall j, a | j in journals && j.key.source.OfPayment? == false
      ensures Net(j.entries, a) == ShopNet(after)(j.key, a)
    {
      assert j.key in Keys(journals);
      KeyNetStays(before, after, j.key, a);
      assert Net(j.entries, a) == ShopNet(before)(j.key, a);
    }
  }

  lemma ShopNetNegates(shop: Shop)
    ensures RefundsNegate(ShopNet(shop))
  {
  }

  /** The general step: post sound lines that amount to what the key says. */
  lemma PostStep(m: Market, key: Key, lines: seq<Line>, net: (Key, Account) -> int)
    requires LedgerInv(m.books.journals) && Shaped(m.books.journals, false, net)
    requires Sound(lines)
    requires forall a :: Net(lines, a) == net(key, a)
    ensures var js := Post(m.books.journals, key, lines);
            LedgerInv(js) && Shaped(js, false, net) && Keys(js) == Keys(m.books.journals) + {key}
    ensures !Refused(PostStatus(m.books.journals, key, lines))
    ensures OnlyAdds(m.books.journals, Post(m.books.journals, key, lines), key.source)
  {
    PostKeepsLedger(m.books.journals, key, lines);
    PostKeepsShape(m.books.journals, key, lines, false, net);
  }

  // ---- placing and moving orders ----

  /** An order as checkout writes it. */
  predicate CheckoutOrder(o: Order) {
    && (forall it | it in o.items :: it.quantity >= 1)
    && o.total == ItemsGross(o.items) + o.delivery
    && o.status == (if o.payBy == CashOnDelivery then Processing else PendingPayment)
  }

  lemma PlaceKeepsInv(m: Market, draft: Order)
    requires MarketInv(m) && CheckoutOrder(draft)
    ensures MarketInv(PlaceOrder(m, draft).after)
    ensures Extends(m.shop, PlaceOrder(m, draft).after.shop)
  {
    var after := PlaceOrder(m, draft).after;
    if after != m {
      var keys, n := Keys(m.books.journals), |m.shop.orders|;
      ShapeStays(m.books.journals, m.shop, after.shop);
      forall k | k in keys ensures k.source != OfOrder(n) && KnownKey(k, n + 1, |m.shop.payouts|) {
        assert KnownKey(k, n, |m.shop.payouts|);
      }
      assert PayKey(n) !in keys && ReleaseKey(n) !in keys && PayRefundKey(n) !in keys && ReleaseRefundKey(n) !in keys;
      assert OrdersOK(keys, after.shop.orders, m.shop.refunded);
      TxsStay(m.shop.orderTxs, keys, keys, m.shop.orders, after.shop.orders);
    }
  }

  lemma TxsStay(txs: seq<OrderTx>, keys: set<Key>, keys': set<Key>, orders: seq<Order>, orders': seq<Order>)
    requires TxsOK(txs, keys, orders) && keys <= keys' && |orders| <= |orders'|
    requires forall i | 0 <= i < |orders| :: orders'[i].payBy == orders[i].payBy && orders'[i].total == orders[i].total
    ensures TxsOK(txs, keys', orders')
  {
  }

  /** Moving order i to a status its journals allow. */
  lemma MoveKeepsInv(m: Market, i: nat, to: OrderStatus)
    requires MarketInv(m) && i < |m.shop.orders|
    requires CanTransition(m.shop.orders[i].status, to)
    ensures MarketInv(m.(shop := MoveOrder(m.shop, i, to)))
    ensures Extends(m.shop, MoveOrder(m.shop, i, to))
  {
    var after := MoveOrder(m.shop, i, to);
    var keys, o := Keys(m.books.journals), m.shop.orders[i];
    assert OrderOK(o, PayKey(i) in keys, ReleaseKey(i) in keys, PayRefundKey(i) in keys, ReleaseRefundKey(i) in keys,
                   i in m.shop.refunded);
    ShapeStays(m.books.journals, m.shop, after);
    forall k: nat | k < |after.orders|
      ensures OrderOK(after.orders[k], PayKey(k) in keys, ReleaseKey(k) in keys, PayRefundKey(k) in keys,
                      ReleaseRefundKey(k) in keys, k in m.shop.refunded)
    {
      assert k != i ==> after.orders[k] == m.shop.orders[k];
    }
    TxsStay(m.shop.orderTxs, keys, keys, m.shop.orders, after.orders);
  }

  lemma TransitionKeepsInv(m: Market, i: nat, to: OrderStatus)
    requires MarketInv(m)
    ensures MarketInv(Transition(m, i, to).after) && Extends(m.shop, Transition(m, i, to).after.shop)
  {
    if Transition(m, i, to).after != m {
      MoveKeepsInv(m, i, to);
    }
  }

  lemma CancelKeepsInv(m: Market, user: nat, i: nat)
    requires MarketInv(m)
    ensures MarketInv(CancelByBuyer(m, user, i).after) && Extends(m.shop, CancelByBuyer(m, user, i).after.shop)
  {
    if CancelByBuyer(m, user, i).after != m {
      MoveKeepsInv(m, i, Cancelled);
    }
  }

  // ---- payments ----

  lemma OpenKeepsInv(m: Market, i: nat, now: int)
    requires MarketInv(m)
    ensures MarketInv(OpenOrderPayment(m, i, now)) && Extends(m.shop, OpenOrderPayment(m, i, now).shop)
  {
    var after := OpenOrderPayment(m, i, now);
    if after != m {
      ShapeStays(m.books.journals, m.shop, after.shop);
      var keys := Keys(m.books.journals);
      forall t: nat | t < |after.shop.orderTxs| ensures TxOK(after.shop.orderTxs[t], keys, after.shop.orders) {
        assert t < |m.shop.orderTxs| ==> TxOK(m.shop.orderTxs[t], keys, m.shop.orders);
      }
    }
  }

  /** Changing a payment row to anything but completed. */
  lemma FlagKeepsInv(m: Market, t: nat, status: TxStatus)
    requires MarketInv(m) && t < |m.shop.orderTxs| && status != Completed
    ensures MarketInv(m.(shop := WithTx(m.shop, t, status))) && Extends(m.shop, WithTx(m.shop, t, status))
  {
    var after := WithTx(m.shop, t, status);
    ShapeStays(m.books.journals, m.shop, after);
    var keys := Keys(m.books.journals);
    forall k: nat | k < |after.orderTxs| ensures TxOK(after.orderTxs[k], keys, after.orders) {
      assert TxOK(m.shop.orderTxs[k], keys, m.shop.orders);
    }
  }

  lemma CloseKeepsInv(m: Market, t: nat, to: TxStatus)
    requires MarketInv(m) && to != Completed
    ensures MarketInv(CloseOrderPayment(m, t, to)) && Extends(m.shop, CloseOrderPayment(m, t, to).shop)
  {
    if CloseOrderPayment(m, t, to) != m {
      FlagKeepsInv(m, t, to);
    }
  }

  /** Booking an order's payment is refused only for a negative total; otherwise it adds the order's key
      and its invoice. */
  lemma RecordFacts(m: Market, i: nat, year: nat)
    requires MarketInv(m) && i < |m.shop.orders|
    ensures RecordOrderPayment(m.books, i, m.shop.orders[i], year).Some? <==> m.shop.orders[i].total >= 0
    ensures m.shop.orders[i].total >= 0 ==>
              var b := RecordOrderPayment(m.books, i, m.shop.orders[i], year).value;
              && LedgerInv(b.journals) && InvoiceInv(b.invoices, b.counters)
              && Shaped(b.journals, false, ShopNet(m.shop))
              && Keys(b.journals) == Keys(m.books.journals) + {PayKey(i)}
              && OnlyAdds(m.books.journals, b.journals, OfOrder(i))
              && (forall s :: HasInvoice(b.invoices, s) <==> HasInvoice(m.books.invoices, s) || s == OfOrder(i))
  {
    var o := m.shop.orders[i];
    if o.total >= 0 {
      TransferFacts(GatewayBkash, OrdersEscrow, o.total, GatewayBkash);
      forall a ensures Net(PayLines(o), a) == ShopNet(m.shop)(PayKey(i), a) {
        TransferFacts(GatewayBkash, OrdersEscrow, o.total, a);
      }
      PostStep(m, PayKey(i), PayLines(o), ShopNet(m.shop));
      OrderBillAddsUp(i, o);
      IssueKeepsInvoices(m.books.(journals := Post(m.books.journals, PayKey(i), PayLines(o))), OrderBill(i, o), year);
    } else {
      assert PayLines(o)[0] in PayLines(o) && !ValidLine(PayLines(o)[0]);
    }
  }

  /** A confirmed payment is booked whenever its amount matches and its order still waits for it, unless
      and only unless it was for a negative amount. */
  lemma SettleKeepsInv(m: Market, t: nat, amount: Option<int>, year: nat)
    requires MarketInv(m)
    ensures var o := SettleOrderPayment(m, t, amount, year);
            && MarketInv(o.after) && Extends(m.shop, o.after.shop)
            && (o.reply == LedgerRefused <==>
                  && t < |m.shop.orderTxs| && m.shop.orderTxs[t].status != Completed && m.shop.orderTxs[t].amount < 0
                  && (amount.Some? ==> amount.value == m.shop.orderTxs[t].amount)
                  && m.shop.orders[m.shop.orderTxs[t].order].status == PendingPayment)
  {
    var after := SettleOrderPayment(m, t, amount, year).after;
    if t < |m.shop.orderTxs| {
      var tx, keys := m.shop.orderTxs[t], Keys(m.books.journals);
      assert TxOK(tx, keys, m.shop.orders);
      RecordFacts(m, tx.order, year);
      if after.shop == WithTx(m.shop, t, NeedsReview) {
        FlagKeepsInv(m, t, NeedsReview);
      } else if m.shop.orders[tx.order].status == PendingPayment && tx.amount >= 0 {
        PaidKeepsInv(m, t, tx.order, year);
      }
    }
  }

  lemma PaidKeepsInv(m: Market, t: nat, i: nat, year: nat)
    requires MarketInv(m) && t < |m.shop.orderTxs|
    requires i == m.shop.orderTxs[t].order && i < |m.shop.orders| && m.shop.orders[i].status == PendingPayment
    requires RecordOrderPayment(m.books, i, m.shop.orders[i], year).Some?
    ensures var after := Market(RecordOrderPayment(m.books, i, m.shop.orders[i], year).value,
                                WithTx(WithStatus(m.shop, i, Paid), t, Completed));
            MarketInv(after) && Extends(m.shop, after.shop)
  {
    var books := RecordOrderPayment(m.books, i, m.shop.orders[i], year).value;
    var shop := WithTx(WithStatus(m.shop, i, Paid), t, Completed);
    var keys, keys' := Keys(m.books.journals), Keys(books.journals);
    RecordFacts(m, i, year);
    ShapeStays(books.journals, m.shop, shop);
    PaidOrdersOK(keys, m.shop, i);
    PayoutsStay(keys, keys', m.shop.payouts);
    PaidTxsOK(keys, m.shop, t, i);
  }

  lemma PaidOrdersOK(keys: set<Key>, shop: Shop, i: nat)
    requires OrdersOK(keys, shop.orders, shop.refunded)
    requires i < |shop.orders| && shop.orders[i].status == PendingPayment && shop.orders[i].payBy == Bkash
    requires shop.orders[i].total >= 0
    ensures OrdersOK(keys + {PayKey(i)}, WithStatus(shop, i, Paid).orders, shop.refunded)
  {
  }

  /** An order is paid once: nothing else was completed for an order that still waited. */
  lemma PaidTxsOK(keys: set<Key>, shop: Shop, t: nat, i: nat)
    requires OrdersOK(keys, shop.orders, shop.refunded) && TxsOK(shop.orderTxs, keys, shop.orders)
    requires t < |shop.orderTxs| && i == shop.orderTxs[t].order && i < |shop.orders|
    requires shop.orders[i].status == PendingPayment
    ensures TxsOK(WithTx(WithStatus(shop, i, Paid), t, Completed).orderTxs, keys + {PayKey(i)},
                  WithStatus(shop, i, Paid).orders)
  {
  }

  lemma PayoutsStay(keys: set<Key>, keys': set<Key>, payouts: seq<Payout>)
    requires PayoutsOK(keys, payouts)
    requires forall k: Key | k.source.OfPayout? :: k in keys' <==> k in keys
    ensures PayoutsOK(keys', payouts)
  {
  }

  lemma OrdersStay(keys: set<Key>, keys': set<Key>, orders: seq<Order>, refunded: set<nat>)
    requires OrdersOK(keys, orders, refunded)
    requires forall k: Key | k.source.OfOrder? :: k in keys' <==> k in keys
    ensures OrdersOK(keys', orders, refunded)
  {
  }

  // ---- delivery ----

  /** With the payment booked (and only then), an order's release keeps everything. */
  lemma BooksBeforeReleaseFacts(m: Market, i: nat, year: nat)
    requires MarketInv(m) && i < |m.shop.orders| && m.shop.orders[i].status == Delivered
    ensures BooksBeforeRelease(m.books, i, m.shop.orders[i], year).Some? <==>
            m.shop.orders[i].payBy == CashOnDelivery || m.shop.orders[i].total >= 0
    ensures BooksBeforeRelease(m.books, i, m.shop.orders[i], year).Some? ==>
            var b := BooksBeforeRelease(m.books, i, m.shop.orders[i], year).value;
            && MarketInv(Market(b, m.shop))
            && (m.shop.orders[i].payBy == Bkash ==> PayKey(i) in Keys(b.journals))
            && OnlyAdds(m.books.journals, b.journals, OfOrder(i))
            && Keys(m.books.journals) <= Keys(b.journals) <= Keys(m.books.journals) + {PayKey(i)}
  {
    var o, keys := m.shop.orders[i], Keys(m.books.journals);
    assert OrderOK(o, PayKey(i) in keys, ReleaseKey(i) in keys, PayRefundKey(i) in keys, ReleaseRefundKey(i) in keys,
                   i in m.shop.refunded);
    var b := BooksBeforeRelease(m.books, i, o, year);
    if o.payBy == CashOnDelivery {
      OrderBillAddsUp(i, o);
      IssueKeepsInvoices(m.books, OrderBill(i, o), year);
    } else if PayKey(i) !in keys && o.total < 0 {
      RecordFacts(m, i, year);
    } else if PayKey(i) !in keys {
      RecordFacts(m, i, year);
      var keys' := Keys(b.value.journals);
      forall k: nat | k < |m.shop.orders|
        ensures OrderOK(m.shop.orders[k], PayKey(k) in keys', ReleaseKey(k) in keys', PayRefundKey(k) in keys',
                        ReleaseRefundKey(k) in keys', k in m.shop.refunded)
      {
        assert OrderOK(m.shop.orders[k], PayKey(k) in keys, ReleaseKey(k) in keys, PayRefundKey(k) in keys,
                       ReleaseRefundKey(k) in keys, k in m.shop.refunded);
      }
      PayoutsStay(keys, keys', m.shop.payouts);
      TxsStay(m.shop.orderTxs, keys, keys', m.shop.orders, m.shop.orders);
    }
  }

  lemma {:induction false} ReleaseLinesFacts(m: Market, i: nat)
    requires MarketInv(m) && i < |m.shop.orders|
    ensures forall a :: Net(DeliveryLines(m.shop, m.shop.orders[i]), a) == ShopNet(m.shop)(ReleaseKey(i), a)
  {
    var o := m.shop.orders[i];
    forall a ensures Net(DeliveryLines(m.shop, o), a) == ShopNet(m.shop)(ReleaseKey(i), a) {
      ReleaseMovesPerLineSums(o.payBy == Bkash, Platform(m.shop.merchants), o.items, a);
    }
  }

  /** Posting the release journal of a delivered order whose payment is booked. */
  lemma ReleaseKeepsInv(m: Market, i: nat, lines: seq<Line>)
    requires MarketInv(m) && i < |m.shop.orders| && m.shop.orders[i].status == Delivered
    requires m.shop.orders[i].payBy == Bkash ==> PayKey(i) in Keys(m.books.journals)
    requires Sound(lines) && forall a :: Net(lines, a) == ShopNet(m.shop)(ReleaseKey(i), a)
    ensures var js := Post(m.books.journals, ReleaseKey(i), lines);
            && !Refused(PostStatus(m.books.journals, ReleaseKey(i), lines))
            && MarketInv(m.(books := m.books.(journals := js)))
            && OnlyAdds(m.books.journals, js, OfOrder(i))
            && Keys(js) == Keys(m.books.journals) + {ReleaseKey(i)}
  {
    PostStep(m, ReleaseKey(i), lines, ShopNet(m.shop));
    var keys, keys' := Keys(m.books.journals), Keys(m.books.journals) + {ReleaseKey(i)};
    ReleasedOrdersOK(keys, m.shop, i);
    PayoutsStay(keys, keys', m.shop.payouts);
    TxsStay(m.shop.orderTxs, keys, keys', m.shop.orders, m.shop.orders);
  }

  lemma ReleasedOrdersOK(keys: set<Key>, shop: Shop, i: nat)
    requires OrdersOK(keys, shop.orders, shop.refunded)
    requires i < |shop.orders| && shop.orders[i].status == Delivered
             && (shop.orders[i].payBy == Bkash ==> PayKey(i) in keys)
    ensures OrdersOK(keys + {ReleaseKey(i)}, shop.orders, shop.refunded)
  {
  }

  /** Each seller's share is one the ledger takes, and so is what bKash was asked for. */
  predicate Bookable(shop: Shop, o: Order) {
    SharesOk(o.payBy == Bkash, Platform(shop.merchants), o.items) && (o.payBy == Bkash ==> o.total >= 0)
  }

  /** No amount of the order is negative. */
  lemma SellableIsBookable(shop: Shop, o: Order)
    requires Sellable(o.items) && o.total >= 0
    ensures Bookable(shop, o)
  {
    ReleaseIsSound(o.payBy == Bkash, Platform(shop.merchants), o.items);
    ReleaseSoundIff(o.payBy == Bkash, Platform(shop.merchants), o.items);
  }

  /** A delivered order is released by the first call, unless and only unless a seller's share or the
      total to book is negative; releasing again changes nothing. */
  lemma {:induction false} DeliverKeepsInv(m: Market, i: nat, year: nat)
    requires MarketInv(m)
    ensures var o := Deliver(m, i, year);
            && MarketInv(o.after) && o.after.shop == m.shop
            && (o.reply == LedgerRefused <==>
                  i < |m.shop.orders| && m.shop.orders[i].status == Delivered
                  && ReleaseKey(i) !in Keys(m.books.journals) && !Bookable(m.shop, m.shop.orders[i]))
    ensures var o := Deliver(m, i, year);
            && OnlyAdds(m.books.journals, o.after.books.journals, OfOrder(i))
            && (o.reply == Ok ==> ReleaseKey(i) in Keys(o.after.books.journals))
            && (ReleaseKey(i) in Keys(m.books.journals) ==> o.after == m)
            && Keys(m.books.journals) <= Keys(o.after.books.journals)
            && Keys(o.after.books.journals) <= Keys(m.books.journals) + {PayKey(i), ReleaseKey(i)}
  {
    if i < |m.shop.orders| && m.shop.orders[i].status == Delivered && ReleaseKey(i) !in Keys(m.books.journals) {
      BooksBeforeReleaseFacts(m, i, year);
      ReleaseSoundIff(m.shop.orders[i].payBy == Bkash, Platform(m.shop.merchants), m.shop.orders[i].items);
      ReleaseLinesFacts(m, i);
      ReleaseFacts(m, i, year, DeliveryLines(m.shop, m.shop.orders[i]));
    }
  }

  /** A paid and delivered bKash order that is never released: its one line has a negative price, and
      its delivery charge kept the total positive. */
  lemma NegativePriceIsRefused(m: Market, i: nat, year: nat)
    requires MarketInv(m) && i < |m.shop.orders| && m.shop.orders[i].status == Delivered
    requires m.shop.orders[i].items == [Item(0, 0, 1, -100, 10.0)] && m.shop.orders[i].payBy == Bkash
    requires ReleaseKey(i) !in Keys(m.books.journals)
    ensures Deliver(m, i, year) == Outcome(m, LedgerRefused)
  {
    var o := m.shop.orders[i];
    NegativePriceCases(Platform(m.shop.merchants));
    ReleaseSoundIff(true, Platform(m.shop.merchants), o.items);
    DeliverKeepsInv(m, i, year);
  }

  /** Once the payment is in place the release is posted, unless its lines are refused. */
  lemma ReleaseFacts(m: Market, i: nat, year: nat, lines: seq<Line>)
    requires MarketInv(m) && i < |m.shop.orders| && m.shop.orders[i].status == Delivered
    requires forall a :: Net(lines, a) == ShopNet(m.shop)(ReleaseKey(i), a)
    ensures var b := BooksBeforeRelease(m.books, i, m.shop.orders[i], year);
            b.Some? ==>
              var js := Post(b.value.journals, ReleaseKey(i), lines);
              && (Refused(PostStatus(b.value.journals, ReleaseKey(i), lines)) <==> !Sound(lines))
              && (Sound(lines) ==>
                    && MarketInv(Market(b.value.(journals := js), m.shop))
                    && OnlyAdds(m.books.journals, js, OfOrder(i))
                    && Keys(m.books.journals) <= Keys(js) <= Keys(m.books.journals) + {PayKey(i), ReleaseKey(i)}
                    && ReleaseKey(i) in Keys(js))
  {
    BooksBeforeReleaseFacts(m, i, year);
    var b := BooksBeforeRelease(m.books, i, m.shop.orders[i], year);
    if b.Some? && Sound(lines) {
      ReleaseKeepsInv(Market(b.value, m.shop), i, lines);
      AddsTwice(m.books.journals, b.value.journals, Post(b.value.journals, ReleaseKey(i), lines), OfOrder(i));
    }
  }

  lemma AddsTwice(a: seq<Journal>, b: seq<Journal>, c: seq<Journal>, source: Source)
    requires OnlyAdds(a, b, source) && OnlyAdds(b, c, source)
    ensures OnlyAdds(a, c, source)
  {
  }

  // ---- payouts ----

  /** Locks and what bKash knows and says bear on no row and no journal. */
  lemma OutsideKeepsInv(m: Market, shop: Shop)
    requires MarketInv(m)
    requires shop == m.shop.(reserving := shop.reserving, sessions := shop.sessions, answers := shop.answers)
    requires forall id | id in shop.reserving :: shop.reserving[id] >= MIN_PAYOUT
    ensures MarketInv(m.(shop := shop)) && Extends(m.shop, shop)
  {
    ShapeStays(m.books.journals, m.shop, shop);
  }

  /** A reserved request is always written. */
  lemma CommitKeepsInv(m: Market, id: nat)
    requires MarketInv(m)
    ensures MarketInv(CommitPayout(m, id)) && Extends(m.shop, CommitPayout(m, id).shop)
    ensures OnlyAdds(m.books.journals, CommitPayout(m, id).books.journals, OfPayout(|m.shop.payouts|))
    ensures id in m.shop.reserving ==>
              CommitPayout(m, id).shop.payouts == m.shop.payouts + [Payout(id, m.shop.reserving[id], Requested)]
  {
    if id in m.shop.reserving {
      var p := Payout(id, m.shop.reserving[id], Requested);
      var n := |m.shop.payouts|;
      var shop := m.shop.(payouts := m.shop.payouts + [p], reserving := m.shop.reserving - {id});
      ShapeStays(m.books.journals, m.shop, shop);
      var key := Key(PayoutRequest, OfPayout(n));
      TransferFacts(MerchantAccount(id), PayoutsPending, p.amount, GatewayBkash);
      forall a ensures Net(PayoutLines(p), a) == ShopNet(shop)(key, a) {
        TransferFacts(MerchantAccount(id), PayoutsPending, p.amount, a);
      }
      PostStep(m, key, PayoutLines(p), ShopNet(shop));
      var keys := Keys(m.books.journals);
      var keys' := keys + {key};
      NewPayoutOK(keys, |m.shop.orders|, m.shop.payouts, p);
      OrdersStay(keys, keys', m.shop.orders, m.shop.refunded);
      TxsStay(m.shop.orderTxs, keys, keys', m.shop.orders, m.shop.orders);
    }
  }

  lemma NewPayoutOK(keys: set<Key>, orders: nat, payouts: seq<Payout>, p: Payout)
    requires PayoutsOK(keys, payouts) && KeysKnown(keys, orders, |payouts|) && p.status == Requested && p.amount > 0
    ensures var keys' := keys + {Key(PayoutRequest, OfPayout(|payouts|))};
            PayoutsOK(keys', payouts + [p]) && KeysKnown(keys', orders, |payouts| + 1)
  {
  }

  /** The uninterrupted request is the two halves run back to back. */
  lemma RequestIsBeginThenCommit(m: Market, id: nat, amount: int)
    requires MarketInv(m) && id !in m.shop.reserving
    ensures RequestPayout(m, id, amount).after == CommitPayout(BeginPayout(m, id, amount), id)
    ensures RequestPayout(m, id, amount).reply != LedgerRefused
  {
    var held := m.shop.reserving[id := amount];
    assert held - {id} == m.shop.reserving;
    if PayoutCheck(m, id, amount) == Ok {
      TransferFacts(MerchantAccount(id), PayoutsPending, amount, GatewayBkash);
    }
  }

  lemma SettlePayoutKeepsInv(m: Market, k: nat, to: PayoutStatus)
    requires MarketInv(m) && to != Requested
    ensures var o := SettlePayout(m, k, to);
            MarketInv(o.after) && Extends(m.shop, o.after.shop) && o.reply != LedgerRefused
            && OnlyAdds(m.books.journals, o.after.books.journals, OfPayout(k))
  {
    if k < |m.shop.payouts| && m.shop.payouts[k].status == Requested {
      var p := m.shop.payouts[k];
      var keys := Keys(m.books.journals);
      assert PayoutOK(p, Key(PayoutRequest, OfPayout(k)) in keys, Key(PayoutPaid, OfPayout(k)) in keys,
                      Key(PayoutRejected, OfPayout(k)) in keys);
      var shop := m.shop.(payouts := m.shop.payouts[k := p.(status := to)]);
      ShapeStays(m.books.journals, m.shop, shop);
      var key := Key(SettleKind(to), OfPayout(k));
      SettleLinesFacts(shop, k, p, to);
      PostStep(m, key, SettleLines(p, to), ShopNet(shop));
      var keys' := keys + {key};
      SettledPayoutsOK(keys, m.shop.payouts, k, to);
      OrdersStay(keys, keys', m.shop.orders, m.shop.refunded);
      TxsStay(m.shop.orderTxs, keys, keys', m.shop.orders, m.shop.orders);
    }
  }

  lemma SettleLinesFacts(shop: Shop, k: nat, p: Payout, to: PayoutStatus)
    requires k < |shop.payouts| && shop.payouts[k].merchant == p.merchant && shop.payouts[k].amount == p.amount
    requires p.amount >= 0 && to != Requested
    ensures Sound(SettleLines(p, to))
    ensures forall a :: Net(SettleLines(p, to), a) == ShopNet(shop)(Key(SettleKind(to), OfPayout(k)), a)
  {
    var target := if to == Transferred then CashOut else MerchantAccount(p.merchant);
    TransferFacts(PayoutsPending, target, p.amount, GatewayBkash);
    forall a ensures Net(SettleLines(p, to), a) == ShopNet(shop)(Key(SettleKind(to), OfPayout(k)), a) {
      TransferFacts(PayoutsPending, target, p.amount, a);
    }
  }

  lemma SettledPayoutsOK(keys: set<Key>, payouts: seq<Payout>, k: nat, to: PayoutStatus)
    requires PayoutsOK(keys, payouts) && k < |payouts| && payouts[k].status == Requested && to != Requested
    ensures PayoutsOK(keys + {Key(SettleKind(to), OfPayout(k))}, payouts[k := payouts[k].(status := to)])
  {
  }

  // ---- refunds ----

  /** What reversing an order's journals adds to the key set. */
  function OrderRefundKeys(keys: set<Key>, i: nat): set<Key> {
    (if PayKey(i) in keys then {PayRefundKey(i)} else {})
      + (if ReleaseKey(i) in keys then {ReleaseRefundKey(i)} else {})
  }

  lemma RefundKeysOfOrder(journals: seq<Journal>, i: nat)
    ensures RefundKeys(journals, OfOrder(i), OrderKinds()) == OrderRefundKeys(Keys(journals), i)
  {
    var made := RefundKeys(journals, OfOrder(i), OrderKinds());
    var keys := Keys(journals);
    if PayKey(i) in keys {
      var x := KeyOfIndex(journals, PayKey(i));
      assert journals[x] in journals;
    }
    if ReleaseKey(i) in keys {
      var x := KeyOfIndex(journals, ReleaseKey(i));
      assert journals[x] in journals;
    }
    forall k | k in made ensures k in OrderRefundKeys(keys, i) {
      var j :| j in journals && j.key.source == OfOrder(i) && j.key.kind in OrderKinds()
        && k == Key(RefundOf(j.key.kind), OfOrder(i));
      assert j.key in keys;
      assert j.key == PayKey(i) || j.key == ReleaseKey(i);
    }
  }

  lemma ReversalIsAccepted(journals: seq<Journal>, source: Source, kinds: set<Kind>)
    requires LedgerInv(journals)
    ensures !ReversalRefused(journals, source, kinds)
  {
    forall j | j in journals ensures Sound(Swap(j.entries)) {
      SwapIsSound(j.entries);
    }
  }

  lemma RefundedBooks(m: Market, i: nat)
    requires MarketInv(m) && i < |m.shop.orders|
    ensures var js := Reverse(m.books.journals, OfOrder(i), OrderKinds());
            && LedgerInv(js) && Shaped(js, false, ShopNet(m.shop))
            && Keys(js) == Keys(m.books.journals) + OrderRefundKeys(Keys(m.books.journals), i)
            && OnlyAdds(m.books.journals, js, OfOrder(i))
  {
    var js := m.books.journals;
    assert js[..|js|] == js;
    ReverseFacts(js, |js|, js, OfOrder(i), OrderKinds());
    RefundKeysOfOrder(js, i);
    ShopNetNegates(m.shop);
    ReverseKeepsShape(js, |js|, js, OfOrder(i), OrderKinds(), false, ShopNet(m.shop));
    ReverseOnlyAdds(js, |js|, js, OfOrder(i), OrderKinds());
  }

  lemma RefundedOrdersOK(keys: set<Key>, shop: Shop, i: nat)
    requires OrdersOK(keys, shop.orders, shop.refunded)
    requires i < |shop.orders| && shop.orders[i].payBy == Bkash && i !in shop.refunded
    ensures OrdersOK(keys + OrderRefundKeys(keys, i), WithStatus(shop, i, Cancelled).orders, shop.refunded + {i})
  {
  }

  lemma RefundedTxsOK(txs: seq<OrderTx>, keys: set<Key>, keys': set<Key>, orders: seq<Order>, orders': seq<Order>,
                      t: nat)
    requires TxsOK(txs, keys, orders) && keys <= keys' && |orders| <= |orders'| && t < |txs|
    requires forall i | 0 <= i < |orders| :: orders'[i].payBy == orders[i].payBy && orders'[i].total == orders[i].total
    ensures TxsOK(txs[t := txs[t].(status := Refunded)], keys', orders')
  {
  }

  lemma RefundedKeysKnown(keys: set<Key>, i: nat, orders: nat, payouts: nat)
    requires KeysKnown(keys, orders, payouts) && i < orders
    ensures KeysKnown(keys + OrderRefundKeys(keys, i), orders, payouts)
  {
  }

  lemma RefundedOrderKeepsInv(m: Market, i: nat, t: nat)
    requires MarketInv(m) && i < |m.shop.orders| && t < |m.shop.orderTxs|
    requires m.shop.orders[i].payBy == Bkash && i !in m.shop.refunded
    ensures MarketInv(RefundedOrder(m, i, t)) && Extends(m.shop, RefundedOrder(m, i, t).shop)
    ensures OnlyAdds(m.books.journals, RefundedOrder(m, i, t).books.journals, OfOrder(i))
  {
    var after := RefundedOrder(m, i, t);
    var keys := Keys(m.books.journals);
    var keys' := keys + OrderRefundKeys(keys, i);
    RefundedBooks(m, i);
    RefundedKeysKnown(keys, i, |m.shop.orders|, |m.shop.payouts|);
    ShapeStays(after.books.journals, m.shop, after.shop);
    RefundedOrdersOK(keys, m.shop, i);
    PayoutsStay(keys, keys', m.shop.payouts);
    RefundedTxsOK(m.shop.orderTxs, keys, keys', m.shop.orders, after.shop.orders, t);
    VoidKeepsInvoices(m.books, OfOrder(i));
  }

  /** A refund that passes its checks always goes through: no reversal is ever refused. */
  lemma {:induction false} RefundKeepsInv(m: Market, i: nat, reference: string)
    requires MarketInv(m)
    ensures var o := RefundOrder(m, i, reference);
            MarketInv(o.after) && Extends(m.shop, o.after.shop) && o.reply != LedgerRefused
            && OnlyAdds(m.books.journals, o.after.books.journals, OfOrder(i))
  {
    ReversalIsAccepted(m.books.journals, OfOrder(i), OrderKinds());
    if RefundOrder(m, i, reference).after != m {
      RefundedOrderKeepsInv(m, i, NewestSettled(m.shop.orderTxs, i).value);
    }
  }
}
