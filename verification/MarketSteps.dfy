/** What each marketplace transaction does to the tables: a value per committed state. */
module MarketSteps {
  import opened Sums
  import opened Ledger
  import opened Commission
  import opened Release
  import opened Invoices
  import opened Shop

  datatype Market = Market(books: Books, shop: Shop)

  /** The state a transaction leaves, and what it answers. A transaction that answers an error
      was rolled back; one that flags a payment for review commits. */
  datatype Outcome = Outcome(after: Market, reply: Reply)

  function PayKey(i: nat): Key { Key(OrderPayment, OfOrder(i)) }

  function ReleaseKey(i: nat): Key { Key(OrderRelease, OfOrder(i)) }

  function PayRefundKey(i: nat): Key { Key(RefundOf(OrderPayment), OfOrder(i)) }

  function ReleaseRefundKey(i: nat): Key { Key(RefundOf(OrderRelease), OfOrder(i)) }

  function OrderKinds(): set<Kind> { {OrderRelease, OrderPayment} }

  function TransferLines(from: Account, to: Account, amount: int): seq<Line> {
    [Line(from, amount, 0), Line(to, 0, amount)]
  }

  function PayLines(o: Order): seq<Line> {
    TransferLines(GatewayBkash, OrdersEscrow, o.total)
  }

  function DeliveryLines(shop: Shop, o: Order): seq<Line> {
    ReleaseLines(o.payBy == Bkash, Platform(shop.merchants), o.items)
  }

  // ---- invoices of orders ----

  function BillLines(items: seq<Item>): seq<InvoiceLine> {
    if items == [] then [] else
      var it := items[|items| - 1];
      BillLines(items[..|items| - 1]) + [InvoiceLine(it.quantity, it.unitPrice, Gross(it))]
  }

  function OrderBill(i: nat, o: Order): Bill {
    Bill(OfOrder(i), ItemsGross(o.items), 0, ItemsGross(o.items), BillLines(o.items))
  }

  lemma {:induction false} OrderBillAddsUp(i: nat, o: Order)
    ensures var b := OrderBill(i, o); BillAddsUp(b.subtotal, b.discount, b.total, b.lines)
  {
    BillLinesFacts(o.items);
  }

  lemma {:induction false} BillLinesFacts(items: seq<Item>)
    ensures SumBy(BillLines(items), LineTotal()) == ItemsGross(items)
    ensures forall l | l in BillLines(items) :: l.total == l.quantity * l.unitPrice
  {
    if items != [] {
      var rest, it := items[..|items| - 1], items[|items| - 1];
      BillLinesFacts(rest);
      SumByPush(BillLines(rest), InvoiceLine(it.quantity, it.unitPrice, Gross(it)), LineTotal());
    }
  }

  /** The invoice lists the order's lines one by one. */
  lemma {:induction false} BillListsItems(items: seq<Item>, k: nat)
    requires k < |items|
    ensures |BillLines(items)| == |items|
    ensures var it := items[k]; BillLines(items)[k] == InvoiceLine(it.quantity, it.unitPrice, it.unitPrice * it.quantity)
  {
    BillLength(items[..|items| - 1]);
    if k < |items| - 1 {
      BillListsItems(items[..|items| - 1], k);
    }
  }

  lemma {:induction false} BillLength(items: seq<Item>)
    ensures |BillLines(items)| == |items|
  {
    if items != [] {
      BillLength(items[..|items| - 1]);
    }
  }

  /** Buyer money into escrow, and the invoice. None: the ledger refused. */
  function RecordOrderPayment(b: Books, i: nat, o: Order, year: nat): Option<Books> {
    if Refused(PostStatus(b.journals, PayKey(i), PayLines(o))) then None
    else Some(IssueInvoice(b.(journals := Post(b.journals, PayKey(i), PayLines(o))), OrderBill(i, o), year))
  }

  // ---- orders ----

  function WithStatus(shop: Shop, i: nat, to: OrderStatus): Shop
    requires i < |shop.orders|
  {
    var o := shop.orders[i];
    shop.(orders := shop.orders[i := o.(status := to, events := o.events + [to])])
  }

  function PlaceOrder(m: Market, draft: Order): Outcome {
    match FirstShort(m.shop.products, draft.items)
    case Some(k) => Outcome(m, OutOfStock(ShortError(m.shop.products, draft.items, k)))
    case None =>
      Outcome(m.(shop := m.shop.(products := Taken(m.shop.products, draft.items),
                                 orders := m.shop.orders + [draft.(events := [draft.status])])), Ok)
  }

  /** Move an order to `to`; a cancelled order's units go back on the shelf. */
  function MoveOrder(shop: Shop, i: nat, to: OrderStatus): Shop
    requires i < |shop.orders|
  {
    var moved := WithStatus(shop, i, to);
    if to == Cancelled then moved.(products := Restocked(shop.products, shop.orders[i].items)) else moved
  }

  function Transition(m: Market, i: nat, to: OrderStatus): Outcome {
    if i >= |m.shop.orders| then Outcome(m, NotFound)
    else if m.shop.orders[i].status == to then Outcome(m, Ok)
    else if !CanTransition(m.shop.orders[i].status, to) then Outcome(m, InvalidTransition)
    else Outcome(m.(shop := MoveOrder(m.shop, i, to)), Ok)
  }

  function CancelByBuyer(m: Market, user: nat, i: nat): Outcome {
    if i >= |m.shop.orders| then Outcome(m, NotFound) else
      var o := m.shop.orders[i];
      if o.buyer != user then Outcome(m, Forbidden)
      else if o.status == Cancelled then Outcome(m, Ok)
      else if o.status != PendingPayment && !(o.payBy == CashOnDelivery && o.status == Processing) then
        Outcome(m, NotCancellable)
      else Outcome(m.(shop := MoveOrder(m.shop, i, Cancelled)), Ok)
  }

  // ---- order payments ----

  /** The checkout row of a session the gateway opened. The status check that let the buyer start
      was an earlier, unlocked read; the row is written whatever the order's status is by now. */
  function OpenOrderPayment(m: Market, i: nat, now: int): Market {
    if i < |m.shop.orders| && m.shop.orders[i].payBy == Bkash
    then m.(shop := m.shop.(orderTxs := m.shop.orderTxs + [OrderTx(i, m.shop.orders[i].total, Initiated, now)],
                            sessions := m.shop.sessions + [NotYetPaid]))
    else m
  }

  /** The buyer pays at bKash's own page. */
  function PayOrderAtGateway(m: Market, t: nat, amount: Option<int>): Market {
    if t < |m.shop.sessions| && m.shop.sessions[t] == NotYetPaid
    then m.(shop := m.shop.(sessions := m.shop.sessions[t := MoneyTaken(amount)])) else m
  }

  /** bKash answers "Completed" for a session that was paid; the amount may come garbled. */
  function ConfirmOrderPayment(m: Market, t: nat, readable: bool): Market {
    if t < |m.shop.sessions| && m.shop.sessions[t].MoneyTaken?
    then m.(shop := m.shop.(answers := m.shop.answers + {(t, if readable then m.shop.sessions[t].amount else None)}))
    else m
  }

  function WithTx(shop: Shop, t: nat, status: TxStatus): Shop
    requires t < |shop.orderTxs|
  {
    shop.(orderTxs := shop.orderTxs[t := shop.orderTxs[t].(status := status)])
  }

  /** The locked step that turns a confirmed payment into a paid order. */
  function SettleOrderPayment(m: Market, t: nat, amount: Option<int>, year: nat): Outcome {
    if t >= |m.shop.orderTxs| then Outcome(m, NotFound) else
      var tx := m.shop.orderTxs[t];
      if tx.status == Completed then Outcome(m, Ok)
      else if amount.Some? && amount.value != tx.amount then
        Outcome(m.(shop := WithTx(m.shop, t, NeedsReview)), AmountMismatch)
      else if tx.order >= |m.shop.orders| then Outcome(m, NotFound)
      else if m.shop.orders[tx.order].status != PendingPayment then
        Outcome(m.(shop := WithTx(m.shop, t, NeedsReview)), NotPayable)
      else match RecordOrderPayment(m.books, tx.order, m.shop.orders[tx.order], year)
           case None => Outcome(m, LedgerRefused)
           case Some(books) => Outcome(Market(books, WithTx(WithStatus(m.shop, tx.order, Paid), t, Completed)), Ok)
  }

  /** Close a payment that is still initiated; any other is left alone. */
  function CloseOrderPayment(m: Market, t: nat, to: TxStatus): Market {
    if t < |m.shop.orderTxs| && m.shop.orderTxs[t].status == Initiated
    then m.(shop := WithTx(m.shop, t, to)) else m
  }

  // ---- delivery ----

  /** The books once a delivered order's payment and invoice are in place. */
  function BooksBeforeRelease(b: Books, i: nat, o: Order, year: nat): Option<Books> {
    if o.payBy == Bkash then
      if PayKey(i) in Keys(b.journals) then Some(b) else RecordOrderPayment(b, i, o, year)
    else
      Some(IssueInvoice(b, OrderBill(i, o), year))
  }

  function Deliver(m: Market, i: nat, year: nat): Outcome {
    if i >= |m.shop.orders| then Outcome(m, NotFound) else
      var o := m.shop.orders[i];
      if o.status != Delivered then Outcome(m, NotDelivered)
      else if ReleaseKey(i) in Keys(m.books.journals) then Outcome(m, Ok)
      else match BooksBeforeRelease(m.books, i, o, year)
           case None => Outcome(m, LedgerRefused)
           case Some(b) =>
             if Refused(PostStatus(b.journals, ReleaseKey(i), DeliveryLines(m.shop, o))) then Outcome(m, LedgerRefused)
             else Outcome(m.(books := b.(journals := Post(b.journals, ReleaseKey(i), DeliveryLines(m.shop, o)))), Ok)
  }

  // ---- payouts ----

  const MIN_PAYOUT := 500

  function PayoutLines(p: Payout): seq<Line> {
    TransferLines(MerchantAccount(p.merchant), PayoutsPending, p.amount)
  }

  /** The checks a payout request passes while it holds the merchant's row. */
  function PayoutCheck(m: Market, id: nat, amount: int): Reply {
    if amount <= 0 then InvalidAmount
    else if amount < MIN_PAYOUT then BelowMinimum
    else if id >= |m.shop.merchants| then NotFound
    else if !m.shop.merchants[id].approved || m.shop.merchants[id].isPlatform then NotApproved
    else if !m.shop.merchants[id].hasPayoutAccount then NoPayoutAccount
    else if amount > Balance(m.books.journals, MerchantAccount(id)) then InsufficientBalance
    else Ok
  }

  /** First half of a request: lock the merchant, read the balance. A second request waits. */
  function BeginPayout(m: Market, id: nat, amount: int): Market {
    if id !in m.shop.reserving && PayoutCheck(m, id, amount) == Ok
    then m.(shop := m.shop.(reserving := m.shop.reserving[id := amount])) else m
  }

  /** Second half: write the payout and its journal, commit, release the lock. */
  function CommitPayout(m: Market, id: nat): Market {
    if id !in m.shop.reserving then m else
      var p := Payout(id, m.shop.reserving[id], Requested);
      var key := Key(PayoutRequest, OfPayout(|m.shop.payouts|));
      var unlocked := m.shop.(reserving := m.shop.reserving - {id});
      if Refused(PostStatus(m.books.journals, key, PayoutLines(p))) then m.(shop := unlocked)
      else Market(m.books.(journals := Post(m.books.journals, key, PayoutLines(p))),
                  unlocked.(payouts := m.shop.payouts + [p]))
  }

  /** Or the transaction is rolled back after its check: the lock goes and nothing is written. */
  function DropPayout(m: Market, id: nat): Market {
    m.(shop := m.shop.(reserving := m.shop.reserving - {id}))
  }

  /** Both halves with nothing in between. */
  function RequestPayout(m: Market, id: nat, amount: int): Outcome {
    if PayoutCheck(m, id, amount) != Ok then Outcome(m, PayoutCheck(m, id, amount))
    else
      var p := Payout(id, amount, Requested);
      var key := Key(PayoutRequest, OfPayout(|m.shop.payouts|));
      if Refused(PostStatus(m.books.journals, key, PayoutLines(p))) then Outcome(m, LedgerRefused)
      else Outcome(Market(m.books.(journals := Post(m.books.journals, key, PayoutLines(p))),
                          m.shop.(payouts := m.shop.payouts + [p])), Ok)
  }

  function SettleKind(to: PayoutStatus): Kind {
    if to == Transferred then PayoutPaid else PayoutRejected
  }

  function SettleLines(p: Payout, to: PayoutStatus): seq<Line> {
    TransferLines(PayoutsPending, if to == Transferred then CashOut else MerchantAccount(p.merchant), p.amount)
  }

  function SettlePayout(m: Market, k: nat, to: PayoutStatus): Outcome {
    if k >= |m.shop.payouts| then Outcome(m, NotFound) else
      var p := m.shop.payouts[k];
      var key := Key(SettleKind(to), OfPayout(k));
      if p.status != Requested then Outcome(m, NotRequested)
      else if Refused(PostStatus(m.books.journals, key, SettleLines(p, to))) then Outcome(m, LedgerRefused)
      else Outcome(Market(m.books.(journals := Post(m.books.journals, key, SettleLines(p, to))),
                          m.shop.(payouts := m.shop.payouts[k := p.(status := to)])), Ok)
  }

  // ---- refunds ----

  /** A refund needs the reference of the transfer made at bKash. */
  predicate Blank(reference: string) {
    forall c | c in reference :: c in " \t\r\n"
  }

  /** The newest payment row of the order that saw money: completed, under review or refunded. */
  function NewestSettled(txs: seq<OrderTx>, i: nat): (r: Option<nat>)
    ensures r.Some? ==>
            r.value < |txs| && txs[r.value].order == i && txs[r.value].status in {Completed, NeedsReview, Refunded}
    ensures r.Some? ==>
            forall t | r.value < t < |txs| :: txs[t].order != i || txs[t].status !in {Completed, NeedsReview, Refunded}
    ensures r.None? ==>
            forall t | 0 <= t < |txs| :: txs[t].order != i || txs[t].status !in {Completed, NeedsReview, Refunded}
  {
    if txs == [] then None
    else if txs[|txs| - 1].order == i && txs[|txs| - 1].status in {Completed, NeedsReview, Refunded} then
      Some(|txs| - 1)
    else NewestSettled(txs[..|txs| - 1], i)
  }

  predicate ReversalRefused(journals: seq<Journal>, source: Source, kinds: set<Kind>) {
    exists j | j in journals ::
      j.key.source == source && j.key.kind in kinds
      && Refused(PostStatus(journals, Key(RefundOf(j.key.kind), source), Swap(j.entries)))
  }

  function RefundedOrder(m: Market, i: nat, t: nat): Market
    requires i < |m.shop.orders| && t < |m.shop.orderTxs|
  {
    var o := m.shop.orders[i];
    var books := m.books.(journals := Reverse(m.books.journals, OfOrder(i), OrderKinds()),
                          invoices := VoidInvoices(m.books.invoices, OfOrder(i)));
    var moved := WithTx(WithStatus(m.shop, i, Cancelled), t, Refunded);
    var shelved := if o.status != Delivered then moved.(products := Restocked(m.shop.products, o.items)) else moved;
    Market(books, shelved.(refunded := m.shop.refunded + {i}))
  }

  function RefundOrder(m: Market, i: nat, reference: string): Outcome {
    if Blank(reference) then Outcome(m, NotRefundable)
    else if i >= |m.shop.orders| then Outcome(m, NotFound)
    else if m.shop.orders[i].payBy != Bkash then Outcome(m, NotRefundable)
    else match NewestSettled(m.shop.orderTxs, i)
         case None => Outcome(m, NotRefundable)
         case Some(t) =>
           if m.shop.orderTxs[t].status == Refunded then Outcome(m, AlreadyRefunded)
           else if ReversalRefused(m.books.journals, OfOrder(i), OrderKinds()) then Outcome(m, LedgerRefused)
           else if i in m.shop.refunded then Outcome(m, DuplicateRefund)
           else Outcome(RefundedOrder(m, i, t), Ok)
  }
}
