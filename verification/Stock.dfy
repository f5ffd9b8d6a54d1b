/** Conservation of stock over whole runs. */
module Stock {
  import opened Sums
  import opened Ledger
  import opened Commission
  import opened Release
  import opened Shop
  import opened MarketSteps
  import opened MarketLaws
  import opened TillSteps
  import opened TillLaws
  import opened Engine
  import opened Safety

  /** The order keeps its units off the shelf: it is live, or it was delivered before its refund. */
  predicate Holds(o: Order) {
    o.status != Cancelled || Delivered in o.events
  }

  function UnitsHeld(p: nat): Order -> int {
    (o: Order) => if Holds(o) then Demand(o.items, p) else 0
  }

  /** Units of a product on the shelf and with orders. */
  function Units(shop: Shop, p: nat): int
    requires p < |shop.products|
  {
    shop.products[p].stock + SumBy(shop.orders, UnitsHeld(p))
  }

  /** A refund of an order that was cancelled (and restocked) before, which passes the refund's checks. */
  predicate RefundsCancelled(m: Market, step: Step) {
    && step.RefundBuyer? && !Blank(step.reference)
    && step.order < |m.shop.orders| && m.shop.orders[step.order].payBy == Bkash
    && m.shop.orders[step.order].status == Cancelled && step.order !in m.shop.refunded
    && var newest := NewestSettled(m.shop.orderTxs, step.order);
    && newest.Some? && m.shop.orderTxs[newest.value].status != Refunded
  }

  predicate RestocksAgain(s: State, t: Tick) {
    t.commits && RefundsCancelled(Market(s.books, s.shop), t.step)
  }

  ghost predicate StockOK(shop: Shop) {
    forall p | 0 <= p < |shop.products| :: shop.products[p].stock >= 0
  }

  lemma MovedUnits(m: Market, i: nat, to: OrderStatus, p: nat)
    requires MarketInv(m) && i < |m.shop.orders| && p < |m.shop.products|
    requires CanTransition(m.shop.orders[i].status, to)
    ensures var after := MoveOrder(m.shop, i, to);
            |after.products| == |m.shop.products| && Units(after, p) == Units(m.shop, p)
  {
    var o := m.shop.orders[i];
    OrderIsOK(m, i);
    SumByUpdate(m.shop.orders, i, o.(status := to, events := o.events + [to]), UnitsHeld(p));
  }

  lemma PlacedUnits(m: Market, draft: Order, p: nat)
    requires CheckoutOrder(draft) && p < |m.shop.products| && FirstShort(m.shop.products, draft.items) == None
    ensures var after := PlaceOrder(m, draft).after.shop;
            |after.products| == |m.shop.products| && Units(after, p) == Units(m.shop, p)
  {
  }

  lemma PlacedStock(m: Market, draft: Order)
    requires CheckoutOrder(draft) && StockOK(m.shop) && FirstShort(m.shop.products, draft.items) == None
    ensures StockOK(PlaceOrder(m, draft).after.shop)
  {
    FitKeepsStockNonNegative(m.shop.products, draft.items);
  }

  lemma RefundedUnits(m: Market, i: nat, t: nat, p: nat)
    requires MarketInv(m) && i < |m.shop.orders| && t < |m.shop.orderTxs| && p < |m.shop.products|
    requires i !in m.shop.refunded
    ensures var after, o := RefundedOrder(m, i, t).shop, m.shop.orders[i];
            && |after.products| == |m.shop.products|
            && Units(after, p) == Units(m.shop, p) + (if o.status == Cancelled then Demand(o.items, p) else 0)
  {
    var o := m.shop.orders[i];
    OrderIsOK(m, i);
    SumByUpdate(m.shop.orders, i, o.(status := Cancelled, events := o.events + [Cancelled]), UnitsHeld(p));
  }

  lemma SettledUnits(m: Market, x: nat, paid: Option<int>, year: nat, p: nat)
    requires MarketInv(m) && p < |m.shop.products|
    ensures var after := SettleOrderPayment(m, x, paid, year).after.shop;
            after.products == m.shop.products && Units(after, p) == Units(m.shop, p)
  {
    if x < |m.shop.orderTxs| && m.shop.orderTxs[x].order < |m.shop.orders| {
      var i := m.shop.orderTxs[x].order;
      var o := m.shop.orders[i];
      SumByUpdate(m.shop.orders, i, o.(status := Paid, events := o.events + [Paid]), UnitsHeld(p));
    }
  }

  lemma MarketMovesUnits(m: Market, t: Tick, p: nat)
    requires MarketInv(m) && MarketStep(t.step) && p < |m.shop.products|
    requires t.step.Place? ==> CheckoutOrder(t.step.draft)
    ensures var after := MarketAfter(m, t).shop;
            && |after.products| == |m.shop.products|
            && Units(after, p) == Units(m.shop, p) +
              (if RefundsCancelled(m, t.step) then Demand(m.shop.orders[t.step.order].items, p) else 0)
  {
    if t.step.RefundBuyer? {
      RefundMovesUnits(m, t.step.order, t.step.reference, p);
    } else if MarketAfter(m, t) != m {
      match t.step
      case Place(draft) => PlacedUnits(m, draft, p);
      case Move(i, to) => MovedUnits(m, i, to, p);
      case BuyerCancels(user, i) => MovedUnits(m, i, Cancelled, p);
      case SettleOrderTx(x, paid) => SettledUnits(m, x, paid, t.year, p);
      case _ =>
    }
  }

  lemma RefundMovesUnits(m: Market, i: nat, reference: string, p: nat)
    requires MarketInv(m) && p < |m.shop.products|
    ensures var after := RefundOrder(m, i, reference).after.shop;
            && |after.products| == |m.shop.products|
            && Units(after, p) == Units(m.shop, p) +
                 (if RefundsCancelled(m, RefundBuyer(i, reference)) then Demand(m.shop.orders[i].items, p) else 0)
  {
    RefundSucceedsIff(m, i, reference);
    if RefundOrder(m, i, reference).reply == Ok {
      RefundedUnits(m, i, NewestSettled(m.shop.orderTxs, i).value, p);
    }
  }

  lemma MarketKeepsStock(m: Market, t: Tick)
    requires MarketInv(m) && MarketStep(t.step) && StockOK(m.shop)
    requires t.step.Place? ==> CheckoutOrder(t.step.draft)
    ensures StockOK(MarketAfter(m, t).shop) && |MarketAfter(m, t).shop.products| == |m.shop.products|
  {
    if MarketAfter(m, t) != m {
      match t.step
      case Place(draft) => PlacedStock(m, draft);
      case Move(i, to) => RestockedOK(m, i);
      case BuyerCancels(user, i) => RestockedOK(m, i);
      case RefundBuyer(i, reference) => RestockedOK(m, i);
      case _ =>
    }
  }

  lemma RestockedOK(m: Market, i: nat)
    requires MarketInv(m) && StockOK(m.shop) && i < |m.shop.orders|
    ensures forall p | 0 <= p < |m.shop.products| :: Restocked(m.shop.products, m.shop.orders[i].items)[p].stock >= 0
  {
    OrderIsOK(m, i);
    forall q: nat ensures Demand(m.shop.orders[i].items, q) >= 0 {
      DemandNonNegative(m.shop.orders[i].items, q);
    }
  }

  /** Units are neither made nor lost by any step but one: refunding an order that was already
      cancelled puts its units back a second time. */
  lemma {:induction false} StepMovesUnits(s: State, t: Tick, p: nat)
    requires MoneyInv(s) && p < |s.shop.products|
    ensures var after := After(s, t).shop;
            && |after.products| == |s.shop.products|
            && Units(after, p) == Units(s.shop, p) +
                                  (if RestocksAgain(s, t) then Demand(s.shop.orders[t.step.order].items, p) else 0)
  {
    if t.commits && Possible(s, t.step) && MarketStep(t.step) {
      MarketMovesUnits(Market(s.books, s.shop), t, p);
    }
  }

  lemma StepKeepsStock(s: State, t: Tick)
    requires MoneyInv(s) && StockOK(s.shop)
    ensures StockOK(After(s, t).shop) && |After(s, t).shop.products| == |s.shop.products|
  {
    if t.commits && Possible(s, t.step) && MarketStep(t.step) {
      MarketKeepsStock(Market(s.books, s.shop), t);
    }
  }

  /** Such a refund of an order that has units of the product. */
  predicate RestocksUnits(s: State, t: Tick, p: nat) {
    RestocksAgain(s, t) && Demand(s.shop.orders[t.step.order].items, p) != 0
  }

  ghost predicate NeverRestocksUnits(s: State, run: seq<Tick>, p: nat) {
    forall i | 0 <= i < |run| :: !RestocksUnits(RunFrom(s, run[..i]), run[i], p)
  }

  lemma NeverRestocksStep(s: State, run: seq<Tick>, p: nat)
    requires run != []
    ensures NeverRestocksUnits(s, run, p) <==>
            NeverRestocksUnits(s, run[..|run| - 1], p)
            && !RestocksUnits(RunFrom(s, run[..|run| - 1]), run[|run| - 1], p)
  {
    var rest := run[..|run| - 1];
    assert forall i | 0 <= i < |rest| :: rest[..i] == run[..i] && rest[i] == run[i];
    if NeverRestocksUnits(s, rest, p) && !RestocksUnits(RunFrom(s, rest), run[|run| - 1], p) {
      forall i | 0 <= i < |run| ensures !RestocksUnits(RunFrom(s, run[..i]), run[i], p) {
        assert i < |rest| ==> !RestocksUnits(RunFrom(s, rest[..i]), rest[i], p);
      }
    }
  }

  /** No step ever takes units away, and one adds some exactly if it restocks an order again. */
  lemma StepAddsUnitsIff(s: State, t: Tick, p: nat)
    requires MoneyInv(s) && p < |s.shop.products|
    ensures |After(s, t).shop.products| == |s.shop.products|
    ensures Units(After(s, t).shop, p) >= Units(s.shop, p)
    ensures Units(After(s, t).shop, p) == Units(s.shop, p) <==> !RestocksUnits(s, t, p)
  {
    StepMovesUnits(s, t, p);
    if RestocksAgain(s, t) {
      OrderIsOK(Market(s.books, s.shop), t.step.order);
      DemandNonNegative(s.shop.orders[t.step.order].items, p);
    }
  }

  /** Over every run, units on the shelf, in live orders and with refunded-after-delivery buyers never
      become fewer, and stay the same in sum if and only if no refund restocks units of an order that
      was cancelled before. */
  lemma {:induction false} StockIsConserved(s: State, run: seq<Tick>, p: nat)
    requires MoneyInv(s) && p < |s.shop.products|
    ensures |RunFrom(s, run).shop.products| == |s.shop.products|
    ensures Units(RunFrom(s, run).shop, p) >= Units(s.shop, p)
    ensures Units(RunFrom(s, run).shop, p) == Units(s.shop, p) <==> NeverRestocksUnits(s, run, p)
  {
    if run != [] {
      var rest := run[..|run| - 1];
      EveryRunKeepsMoney(s, rest);
      StockIsConserved(s, rest, p);
      NeverRestocksStep(s, run, p);
      StepAddsUnitsIff(RunFrom(s, rest), run[|run| - 1], p);
    }
  }

  /** Stock never goes negative, whatever the orders repeat and whatever is refunded. */
  lemma {:induction false} StockNeverNegative(s: State, run: seq<Tick>)
    requires MoneyInv(s) && StockOK(s.shop)
    ensures StockOK(RunFrom(s, run).shop)
  {
    if run != [] {
      var rest := run[..|run| - 1];
      EveryRunKeepsMoney(s, rest);
      StockNeverNegative(s, rest);
      StepKeepsStock(RunFrom(s, rest), run[|run| - 1]);
    }
  }

  lemma OnlySettled(txs: seq<OrderTx>, i: nat, x: nat)
    requires NewestSettled(txs, i).None? && x < |txs| && txs[x].order == i
    ensures NewestSettled(txs[x := txs[x].(status := NeedsReview)], i) == Some(x)
  {
    var after := txs[x := txs[x].(status := NeedsReview)];
    assert after[x].order == i && after[x].status == NeedsReview;
    assert forall t | 0 <= t < |txs| && t != x :: after[t] == txs[t];
  }

  /** How it happens: an unpaid order is cancelled, bKash confirms the payment late, and the admin
      refunds it. Every product of the order is put back twice. */
  lemma LateRefundRestocksTwice(m: Market, i: nat, x: nat, year: nat, reference: string, p: nat)
    requires MarketInv(m) && i < |m.shop.orders| && m.shop.orders[i].status == PendingPayment
    requires x < |m.shop.orderTxs| && m.shop.orderTxs[x].order == i && m.shop.orderTxs[x].status == Initiated
    requires NewestSettled(m.shop.orderTxs, i).None? && !Blank(reference) && p < |m.shop.products|
    ensures var cancelled := Transition(m, i, Cancelled).after;
            var flagged := SettleOrderPayment(cancelled, x, None, year).after;
            var refunded := RefundOrder(flagged, i, reference);
            && refunded.reply == Ok
            && refunded.after.shop.products[p].stock == m.shop.products[p].stock + 2 * Demand(m.shop.orders[i].items, p)
  {
    OrderIsOK(m, i);
    assert TxOK(m.shop.orderTxs[x], Keys(m.books.journals), m.shop.orders);
    var cancelled := Transition(m, i, Cancelled).after;
    var flagged := SettleOrderPayment(cancelled, x, None, year).after;
    assert flagged.shop.orderTxs == m.shop.orderTxs[x := m.shop.orderTxs[x].(status := NeedsReview)];
    OnlySettled(m.shop.orderTxs, i, x);
    TransitionKeepsInv(m, i, Cancelled);
    SettleKeepsInv(cancelled, x, None, year);
    ReversalIsAccepted(flagged.books.journals, OfOrder(i), OrderKinds());
  }
}
