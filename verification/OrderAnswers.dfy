/** What each marketplace call answers, when, and what it leaves, read off the tables' fields. */
module OrderAnswers {
  import opened Sums
  import opened Ledger
  import opened Commission
  import opened Release
  import opened Invoices
  import opened Shop
  import opened MarketSteps
  import opened MarketLaws
  import opened Safety
  import opened Marketplace

  // ---- the status table ----

  /** The way of an order that is not cancelled. */
  const STAGES := [PendingPayment, Paid, Processing, Shipped, Delivered]

  /** Forward along the stages, any number at a time; to cancelled from each but the last; and nowhere from
      delivered or cancelled. */
  lemma TransitionTable(i: nat, k: nat)
    requires i < 5 && k < 5
    ensures CanTransition(STAGES[i], STAGES[k]) <==> i < k
    ensures CanTransition(STAGES[i], Cancelled) <==> i < 4
    ensures !CanTransition(Cancelled, STAGES[k]) && !CanTransition(Cancelled, Cancelled)
  {
  }

  // ---- placing ----

  /** Line k can be served after the lines before it: its product is on sale, with stock for all of them. */
  predicate Serves(products: seq<Product>, items: seq<Item>, k: nat)
    requires k < |items|
  {
    var p := items[k].product;
    p < |products| && products[p].published && Demand(items[..k], p) + items[k].quantity <= products[p].stock
  }

  lemma ServesLast(products: seq<Product>, items: seq<Item>)
    requires items != []
    ensures LastFits(products, items) <==> Serves(products, items, |items| - 1)
  {
    var rest, last := items[..|items| - 1], items[|items| - 1];
    assert items == rest + [last];
    DemandPush(rest, last, last.product);
  }

  /** The first line that can not be served is the first. */
  lemma {:induction false} FirstShortIsFirst(products: seq<Product>, items: seq<Item>)
    ensures FirstShort(products, items).Some? ==>
              var k := FirstShort(products, items).value;
              !Serves(products, items, k) && forall j: nat | j < k :: Serves(products, items, j)
    ensures FirstShort(products, items).None? ==> forall j: nat | j < |items| :: Serves(products, items, j)
  {
    if items != [] {
      var rest := items[..|items| - 1];
      FirstShortIsFirst(products, rest);
      ServesLast(products, items);
      forall j: nat | j < |rest| ensures Serves(products, rest, j) == Serves(products, items, j) {
        assert rest[..j] == items[..j];
      }
    }
  }

  /** An order is placed exactly when every line can be served after the ones before it; then its units
      leave the shelf. Otherwise nothing changes, and the answer names the first line that can not, with
      what is left for it, and whether the product is gone. */
  lemma {:induction false} PlaceAnswers(m: Market, draft: Order)
    ensures var o := PlaceOrder(m, draft);
            && (o.reply == Ok || o.reply.OutOfStock?)
            && (o.reply == Ok <==> forall j: nat | j < |draft.items| :: Serves(m.shop.products, draft.items, j))
            && (o.reply == Ok ==>
                  && o.after == m.(shop := m.shop.(products := o.after.shop.products,
                                                   orders := m.shop.orders + [draft.(events := [draft.status])]))
                  && |o.after.shop.products| == |m.shop.products|
                  && forall p | 0 <= p < |m.shop.products| ::
                       o.after.shop.products[p] == m.shop.products[p].(stock :=
                         m.shop.products[p].stock - Demand(draft.items, p)))
    ensures var o := PlaceOrder(m, draft);
            o.reply.OutOfStock? ==>
              && o.after == m && var e := o.reply.error;
              && e.line < |draft.items| && !Serves(m.shop.products, draft.items, e.line)
              && (forall j: nat | j < e.line :: Serves(m.shop.products, draft.items, j))
              && var p := draft.items[e.line].product;
              && (e.gone <==> p >= |m.shop.products| || !m.shop.products[p].published)
              && e.available ==
                 if p < |m.shop.products| then m.shop.products[p].stock - Demand(draft.items[..e.line], p) else 0
  {
    FirstShortIsFirst(m.shop.products, draft.items);
  }

  // ---- moving ----

  /** The order's status and timeline move on, and nothing else of any order changes. */
  predicate OrderMoved(before: seq<Order>, after: seq<Order>, i: nat, to: OrderStatus) {
    && i < |before| && |after| == |before|
    && after[i] == before[i].(status := to, events := before[i].events + [to])
    && forall k | 0 <= k < |before| && k != i :: after[k] == before[k]
  }

  /** Each product has this order's units back. */
  predicate UnitsBack(before: seq<Product>, after: seq<Product>, items: seq<Item>) {
    && |after| == |before|
    && forall p | 0 <= p < |before| :: after[p] == before[p].(stock := before[p].stock + Demand(items, p))
  }

  /** A cancellation touches the order, its units on the shelf, and nothing else. */
  predicate OrderCancelled(before: Market, after: Market, i: nat) {
    && OrderMoved(before.shop.orders, after.shop.orders, i, Cancelled)
    && UnitsBack(before.shop.products, after.shop.products, before.shop.orders[i].items)
    && after == before.(shop := before.shop.(orders := after.shop.orders, products := after.shop.products))
  }

  lemma TransitionAnswers(m: Market, i: nat, to: OrderStatus)
    ensures var o := Transition(m, i, to);
            && o.reply in {Ok, NotFound, InvalidTransition}
            && (o.reply == NotFound <==> i >= |m.shop.orders|)
            && (o.reply == Ok <==>
                  i < |m.shop.orders| && (m.shop.orders[i].status == to || CanTransition(m.shop.orders[i].status, to)))
            && (o.reply != Ok || m.shop.orders[i].status == to ==> o.after == m)
            && (o.reply == Ok && m.shop.orders[i].status != to ==>
                  if to == Cancelled then OrderCancelled(m, o.after, i)
                  else OrderMoved(m.shop.orders, o.after.shop.orders, i, to)
                       && o.after == m.(shop := m.shop.(orders := o.after.shop.orders)))
  {
  }

  /** The buyer may still call the order off: it waits for payment, or it is to be paid in cash and not on
      its way yet. */
  predicate BuyerMayCancel(o: Order) {
    o.status == PendingPayment || (o.status == Processing && o.payBy == CashOnDelivery)
  }

  /** A buyer's cancellation changes something if and only if the order is the buyer's own and may still be
      called off; then it is cancelled and its units are back on the shelf. Otherwise the answer says why. */
  lemma CancelAnswers(m: Market, user: nat, i: nat)
    ensures var o := CancelByBuyer(m, user, i);
            var own := i < |m.shop.orders| && m.shop.orders[i].buyer == user;
            && (o.after != m <==> own && BuyerMayCancel(m.shop.orders[i]))
            && (own && BuyerMayCancel(m.shop.orders[i]) ==> o.reply == Ok && OrderCancelled(m, o.after, i))
            && (o.reply == NotFound <==> i >= |m.shop.orders|)
            && (o.reply == Forbidden <==> i < |m.shop.orders| && m.shop.orders[i].buyer != user)
            && (o.reply == Ok <==> own && (BuyerMayCancel(m.shop.orders[i]) || m.shop.orders[i].status == Cancelled))
            && (o.reply == NotCancellable <==>
                  own && !BuyerMayCancel(m.shop.orders[i]) && m.shop.orders[i].status != Cancelled)
  {
    if CancelByBuyer(m, user, i).reply == Ok && m.shop.orders[i].status != Cancelled {
      assert CancelByBuyer(m, user, i).after.shop.orders[i].status == Cancelled;
    }
  }

  /** No buyer cancels an order whose money has moved. */
  lemma CancelledUnpaid(m: Market, user: nat, i: nat)
    requires MarketInv(m) && CancelByBuyer(m, user, i).after != m
    ensures PayKey(i) !in Keys(m.books.journals) && ReleaseKey(i) !in Keys(m.books.journals) && i !in m.shop.refunded
    ensures CancelByBuyer(m, user, i).after.books == m.books
  {
    CancelAnswers(m, user, i);
    OrderIsOK(m, i);
  }

  // ---- paying ----

  /** Row x takes this status, and no other row changes. */
  predicate RowBecomes(before: seq<OrderTx>, after: seq<OrderTx>, x: nat, status: TxStatus) {
    x < |before| && after == before[x := before[x].(status := status)]
  }

  lemma OpenAnswers(m: Market, i: nat, now: int)
    ensures var after := OpenOrderPayment(m, i, now);
            if i < |m.shop.orders| && m.shop.orders[i].payBy == Bkash then
              && after.books == m.books && after.shop.orders == m.shop.orders
              && after.shop.orderTxs == m.shop.orderTxs + [OrderTx(i, m.shop.orders[i].total, Initiated, now)]
            else after == m
  {
  }

  /** What fulfilling an order's payment answers and leaves: it completes exactly when the answer is for
      its amount and the order still waits; it is flagged for review when either is not so. */
  lemma SettleOrderAnswers(m: Market, x: nat, amount: Option<int>, year: nat)
    requires MarketInv(m) && x < |m.shop.orderTxs|
    ensures m.shop.orderTxs[x].order < |m.shop.orders|
    ensures var o := SettleOrderPayment(m, x, amount, year);
            var tx := m.shop.orderTxs[x];
            var agreed := amount.Some? ==> amount.value == tx.amount;
            var waits := m.shop.orders[tx.order].status == PendingPayment;
            if tx.status == Completed then o == Outcome(m, Ok)
            else if !agreed || !waits then
              && o.reply == (if !agreed then AmountMismatch else NotPayable)
              && RowBecomes(m.shop.orderTxs, o.after.shop.orderTxs, x, NeedsReview)
              && o.after == m.(shop := m.shop.(orderTxs := o.after.shop.orderTxs))
            else if tx.amount < 0 then o == Outcome(m, LedgerRefused)
            else
              && o.reply == Ok
              && RowBecomes(m.shop.orderTxs, o.after.shop.orderTxs, x, Completed)
              && OrderMoved(m.shop.orders, o.after.shop.orders, tx.order, Paid)
              && o.after.shop == m.shop.(orders := o.after.shop.orders, orderTxs := o.after.shop.orderTxs)
              && Keys(o.after.books.journals) == Keys(m.books.journals) + {PayKey(tx.order)}
              && HasInvoice(o.after.books.invoices, OfOrder(tx.order))
  {
    assert TxOK(m.shop.orderTxs[x], Keys(m.books.journals), m.shop.orders);
    RecordFacts(m, m.shop.orderTxs[x].order, year);
  }

  lemma CloseOrderAnswers(m: Market, x: nat, to: TxStatus)
    ensures var after := CloseOrderPayment(m, x, to);
            if x < |m.shop.orderTxs| && m.shop.orderTxs[x].status == Initiated then
              && RowBecomes(m.shop.orderTxs, after.shop.orderTxs, x, to)
              && after == m.(shop := m.shop.(orderTxs := after.shop.orderTxs))
            else after == m
  {
  }

  /** Executing a payment: another user's, a completed or a flagged one is left alone; so is any when
      bKash can not be reached and its record shows no success. A refusal closes an open one as failed, and
      success by either answer fulfils it, the execution's own answer first. */
  lemma ExecuteOrderAnswers(m: Market, user: nat, x: nat, execute: Answer, query: Answer, year: nat)
    requires MarketInv(m) && x < |m.shop.orderTxs|
    ensures m.shop.orderTxs[x].order < |m.shop.orders|
    ensures var o, tx := ExecuteOrderPayment(m, user, x, execute, query, year), m.shop.orderTxs[x];
            if m.shop.orders[tx.order].buyer != user then o == Outcome(m, Forbidden)
            else if tx.status == Completed then o == Outcome(m, Ok)
            else if tx.status == NeedsReview then o == Outcome(m, AmountMismatch)
            else if execute.PaidInFull? then o == SettleOrderPayment(m, x, execute.amount, year)
            else if query.PaidInFull? then o == SettleOrderPayment(m, x, query.amount, year)
            else if execute == Unreachable then o == Outcome(m, GatewayError)
            else
              && o.reply == PaymentNotCompleted
              && o.after.books == m.books && o.after.shop == m.shop.(orderTxs := o.after.shop.orderTxs)
              && if tx.status == Initiated then RowBecomes(m.shop.orderTxs, o.after.shop.orderTxs, x, Failed)
                 else o.after == m
  {
    assert TxOK(m.shop.orderTxs[x], Keys(m.books.journals), m.shop.orders);
    CloseOrderAnswers(m, x, Failed);
  }

  // ---- delivery ----

  lemma DeliverAnswers(m: Market, i: nat, year: nat)
    requires MarketInv(m)
    ensures var o := Deliver(m, i, year);
            && o.reply in {Ok, NotFound, NotDelivered, LedgerRefused}
            && (o.reply == NotFound <==> i >= |m.shop.orders|)
            && (o.reply == NotDelivered <==> i < |m.shop.orders| && m.shop.orders[i].status != Delivered)
            && (o.reply != Ok ==> o.after == m) && o.after.shop == m.shop
  {
    DeliverKeepsInv(m, i, year);
  }

  /** A status change to delivered books the order's earnings as well, if and only if the ledger takes them;
      no other change moves money. */
  lemma MoveBooks(m: Market, i: nat, to: OrderStatus, year: nat)
    requires MarketInv(m) && i < |m.shop.orders| && CanTransition(m.shop.orders[i].status, to)
    ensures var after := MovedAndBooked(m, i, to, year);
            && after.shop == Transition(m, i, to).after.shop
            && (to != Delivered ==> after.books == m.books)
            && (to == Delivered ==>
                  (ReleaseKey(i) in Keys(after.books.journals) <==> Bookable(m.shop, m.shop.orders[i])))
  {
    TransitionKeepsInv(m, i, to);
    OrderIsOK(m, i);
    if to == Delivered {
      DeliverOne(Transition(m, i, to).after, i, year);
    }
  }

  // ---- payouts ----

  /** A payout is granted if and only if it is at least 500, the seller is approved, not the platform itself
      and has an account to pay to, and the balance covers it. Otherwise the answer gives the first of these
      that fails, and nothing changes. */
  lemma PayoutAnswers(m: Market, id: nat, amount: int)
    requires MarketInv(m)
    ensures var o := RequestPayout(m, id, amount);
            var known := id < |m.shop.merchants|;
            var trusted := known && m.shop.merchants[id].approved && !m.shop.merchants[id].isPlatform;
            var payable := trusted && m.shop.merchants[id].hasPayoutAccount;
            var covered := Balance(m.books.journals, MerchantAccount(id)) >= amount;
            && (o.reply == Ok <==> amount >= 500 && payable && covered)
            && (o.reply == InvalidAmount <==> amount <= 0)
            && (o.reply == BelowMinimum <==> 0 < amount < 500)
            && (o.reply == NotFound <==> amount >= 500 && !known)
            && (o.reply == NotApproved <==> amount >= 500 && known && !trusted)
            && (o.reply == NoPayoutAccount <==> amount >= 500 && trusted && !payable)
            && (o.reply == InsufficientBalance <==> amount >= 500 && payable && !covered)
            && (o.reply != Ok ==> o.after == m)
            && (o.reply == Ok ==> o.after.shop == m.shop.(payouts := m.shop.payouts + [Payout(id, amount, Requested)]))
  {
    if amount >= 0 {
      TransferFacts(MerchantAccount(id), PayoutsPending, amount, GatewayBkash);
    }
  }

  lemma SettlePayoutAnswers(m: Market, k: nat, to: PayoutStatus)
    requires MarketInv(m) && to != Requested
    ensures var o := SettlePayout(m, k, to);
            && (o.reply == NotFound <==> k >= |m.shop.payouts|)
            && (o.reply == NotRequested <==> k < |m.shop.payouts| && m.shop.payouts[k].status != Requested)
            && (o.reply == Ok <==> k < |m.shop.payouts| && m.shop.payouts[k].status == Requested)
            && (o.reply != Ok ==> o.after == m)
            && (o.reply == Ok ==>
                  o.after.shop == m.shop.(payouts := m.shop.payouts[k := m.shop.payouts[k].(status := to)]))
  {
    SettlePayoutKeepsInv(m, k, to);
  }

  // ---- refunds ----

  /** The invoices of this source are stamped void, and no other is touched. */
  predicate OnlyVoids(before: seq<Invoice>, after: seq<Invoice>, source: Source) {
    && |after| == |before|
    && forall k | 0 <= k < |before| ::
         after[k] == if before[k].source == source then before[k].(voided := true) else before[k]
  }

  /** A refund cancels the order, stamps its invoice void and its newest settled payment refunded, and puts
      its units back unless the buyer has them. Otherwise nothing changes, and the answer says why. */
  lemma RefundOrderAnswers(m: Market, i: nat, reference: string)
    requires MarketInv(m)
    ensures var o := RefundOrder(m, i, reference);
            var known, newest := i < |m.shop.orders|, NewestSettled(m.shop.orderTxs, i);
            var paid := known && m.shop.orders[i].payBy == Bkash && newest.Some?;
            && (o.reply == NotFound <==> !Blank(reference) && !known)
            && (o.reply == NotRefundable <==> Blank(reference) || (known && !paid))
            && (o.reply == AlreadyRefunded <==>
                  !Blank(reference) && paid && m.shop.orderTxs[newest.value].status == Refunded)
            && (o.reply == DuplicateRefund <==>
                  !Blank(reference) && paid && m.shop.orderTxs[newest.value].status != Refunded && i in m.shop.refunded)
            && (o.reply != Ok ==> o.after == m)
    ensures var o := RefundOrder(m, i, reference);
            o.reply == Ok ==>
              && OrderMoved(m.shop.orders, o.after.shop.orders, i, Cancelled)
              && RowBecomes(m.shop.orderTxs, o.after.shop.orderTxs, NewestSettled(m.shop.orderTxs, i).value, Refunded)
              && OnlyVoids(m.books.invoices, o.after.books.invoices, OfOrder(i))
              && (if m.shop.orders[i].status == Delivered then o.after.shop.products == m.shop.products
                  else UnitsBack(m.shop.products, o.after.shop.products, m.shop.orders[i].items))
              && o.after.shop.refunded == m.shop.refunded + {i} && o.after.shop.payouts == m.shop.payouts
  {
    RefundSucceedsIff(m, i, reference);
    ReversalIsAccepted(m.books.journals, OfOrder(i), OrderKinds());
  }
}
