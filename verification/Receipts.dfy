/** What invoices show, over whole runs, and what a second refund finds. */
module Receipts {
  import opened Sums
  import opened Ledger
  import opened Release
  import opened Invoices
  import opened Shop
  import opened MarketSteps
  import opened MarketLaws
  import opened TillSteps
  import opened TillLaws
  import opened Engine
  import opened Safety
  import opened Evidence

  /** A subscription's receipt shows the plan's price, the discount and what was charged; an order's totals
      its items, not its delivery. */
  predicate ReceiptOK(inv: Invoice, shop: Shop, pay: Pay) {
    match inv.source
    case OfPayment(p) =>
      && p < |pay.payments| && var pm := pay.payments[p];
      && inv.total == pm.amount && inv.discount == Discount(pm) && inv.subtotal == pm.amount + Discount(pm)
    case OfOrder(i) =>
      && i < |shop.orders| && inv.discount == 0
      && inv.total == ItemsGross(shop.orders[i].items) && inv.subtotal == inv.total
    case OfPayout(_) => false
  }

  /** What the coupon took off the plan's price, nothing if it raised it. */
  function Discount(pm: Payment): int {
    if pm.original > pm.amount then pm.original - pm.amount else 0
  }

  ghost predicate ReceiptsOK(s: State) {
    forall inv | inv in s.books.invoices :: ReceiptOK(inv, s.shop, s.pay)
  }

  /** Every invoice of `after` is one of `before`, perhaps stamped void, or the one just issued. */
  ghost predicate OnlyIssues(before: seq<Invoice>, after: seq<Invoice>, bill: Bill) {
    forall inv | inv in after ::
      (inv.source == bill.source && inv.total == bill.total && inv.discount == bill.discount
       && inv.subtotal == bill.subtotal)
      || exists kept | kept in before :: inv == kept.(voided := inv.voided)
  }

  lemma IssueOnly(b: Books, bill: Bill, year: nat)
    ensures OnlyIssues(b.invoices, IssueInvoice(b, bill, year).invoices, bill)
  {
    var after := IssueInvoice(b, bill, year).invoices;
    forall inv | inv in after && inv in b.invoices ensures inv == inv.(voided := inv.voided) {
    }
  }

  lemma VoidOnly(invoices: seq<Invoice>, source: Source, inv: Invoice)
    requires inv in VoidInvoices(invoices, source)
    ensures exists kept | kept in invoices :: inv == kept.(voided := inv.voided)
  {
    var k :| 0 <= k < |invoices| && VoidInvoices(invoices, source)[k] == inv;
    assert invoices[k] in invoices;
  }

  /** Rows grow, and no row changes what a receipt shows. */
  ghost predicate ShowsSame(s: State, s': State) {
    && Extends(s.shop, s'.shop)
    && |s.pay.payments| <= |s'.pay.payments|
    && forall p | 0 <= p < |s.pay.payments| ::
         && s'.pay.payments[p].amount == s.pay.payments[p].amount
         && s'.pay.payments[p].original == s.pay.payments[p].original
  }

  lemma KeptReceipts(s: State, s': State, bill: Bill)
    requires ReceiptsOK(s) && ShowsSame(s, s') && OnlyIssues(s.books.invoices, s'.books.invoices, bill)
    requires match bill.source
             case OfPayment(p) =>
               && p < |s.pay.payments| && var pm := s.pay.payments[p];
               && bill.total == pm.amount && bill.discount == Discount(pm) && bill.subtotal == pm.amount + Discount(pm)
             case OfOrder(i) =>
               && i < |s.shop.orders| && bill.discount == 0
               && bill.total == ItemsGross(s.shop.orders[i].items) && bill.subtotal == bill.total
             case OfPayout(_) => false
    ensures ReceiptsOK(s')
  {
    forall inv | inv in s'.books.invoices ensures ReceiptOK(inv, s'.shop, s'.pay) {
      if exists kept | kept in s.books.invoices :: inv == kept.(voided := inv.voided) {
        var kept :| kept in s.books.invoices && inv == kept.(voided := inv.voided);
        assert ReceiptOK(kept, s.shop, s.pay);
      }
    }
  }

  lemma StepShowsSame(s: State, t: Tick)
    requires MoneyInv(s)
    ensures ShowsSame(s, After(s, t))
  {
    StepKeepsMoney(s, t);
  }

  /** The bill a step may issue. */
  function BillOf(s: State, step: Step): Option<Bill> {
    match step
    case SettleOrderTx(x, _) =>
      if x < |s.shop.orderTxs| && s.shop.orderTxs[x].order < |s.shop.orders|
      then Some(OrderBill(s.shop.orderTxs[x].order, s.shop.orders[s.shop.orderTxs[x].order])) else None
    case Release(i) => if i < |s.shop.orders| then Some(OrderBill(i, s.shop.orders[i])) else None
    case Fulfil(p, _) => if p < |s.pay.payments| then Some(SaleBill(p, s.pay.payments[p])) else None
    case _ => None
  }

  lemma NoneIssued(b: Books, bill: Bill)
    ensures OnlyIssues(b.invoices, b.invoices, bill)
  {
    forall inv | inv in b.invoices ensures inv == inv.(voided := inv.voided) {
    }
  }

  lemma BookingIssues(b: Books, i: nat, o: Order, year: nat)
    requires BooksBeforeRelease(b, i, o, year).Some?
    ensures OnlyIssues(b.invoices, BooksBeforeRelease(b, i, o, year).value.invoices, OrderBill(i, o))
  {
    NoneIssued(b, OrderBill(i, o));
    if o.payBy == Bkash {
      IssueOnly(b.(journals := Post(b.journals, PayKey(i), PayLines(o))), OrderBill(i, o), year);
    } else {
      IssueOnly(b, OrderBill(i, o), year);
    }
  }

  lemma DeliverIssues(m: Market, i: nat, year: nat)
    requires i < |m.shop.orders|
    ensures OnlyIssues(m.books.invoices, Deliver(m, i, year).after.books.invoices, OrderBill(i, m.shop.orders[i]))
  {
    NoneIssued(m.books, OrderBill(i, m.shop.orders[i]));
    if BooksBeforeRelease(m.books, i, m.shop.orders[i], year).Some? {
      BookingIssues(m.books, i, m.shop.orders[i], year);
    }
  }

  lemma StepIssues(s: State, t: Tick)
    requires BillOf(s, t.step).Some?
    ensures OnlyIssues(s.books.invoices, After(s, t).books.invoices, BillOf(s, t.step).value)
  {
    forall inv | inv in s.books.invoices ensures inv == inv.(voided := inv.voided) {
    }
    if t.commits && Possible(s, t.step) {
      match t.step
      case SettleOrderTx(x, _) =>
        var i := s.shop.orderTxs[x].order;
        var o := s.shop.orders[i];
        IssueOnly(s.books.(journals := Post(s.books.journals, PayKey(i), PayLines(o))), OrderBill(i, o), t.year);
      case Release(i) => DeliverIssues(Market(s.books, s.shop), i, t.year);
      case Fulfil(p, _) =>
        var pm := s.pay.payments[p];
        IssueOnly(s.books.(journals := Post(s.books.journals, SubKey(p), SaleLines(pm))), SaleBill(p, pm), t.year);
    }
  }

  lemma StepVoids(s: State, t: Tick, inv: Invoice)
    requires BillOf(s, t.step).None? && inv in After(s, t).books.invoices
    ensures exists kept | kept in s.books.invoices :: inv == kept.(voided := inv.voided)
  {
    if inv in s.books.invoices {
      assert inv == inv.(voided := inv.voided);
    } else if t.step.RefundBuyer? {
      VoidOnly(s.books.invoices, OfOrder(t.step.order), inv);
    } else {
      VoidOnly(s.books.invoices, OfPayment(t.step.payment), inv);
    }
  }

  lemma StepKeepsReceipts(s: State, t: Tick)
    requires MoneyInv(s) && ReceiptsOK(s)
    ensures ReceiptsOK(After(s, t))
  {
    StepShowsSame(s, t);
    if BillOf(s, t.step).Some? {
      StepIssues(s, t);
      KeptReceipts(s, After(s, t), BillOf(s, t.step).value);
    } else {
      forall inv | inv in After(s, t).books.invoices ensures ReceiptOK(inv, After(s, t).shop, After(s, t).pay) {
        StepVoids(s, t, inv);
        var kept :| kept in s.books.invoices && inv == kept.(voided := inv.voided);
        assert ReceiptOK(kept, s.shop, s.pay);
      }
    }
  }

  /** After every run each subscription's receipt totals what was charged and each order's its items. */
  lemma {:induction false} ReceiptsAlwaysRight(s: State, run: seq<Tick>)
    requires Fresh(s)
    ensures ReceiptsOK(RunFrom(s, run))
  {
    FreshIsFine(s);
    if run != [] {
      ReceiptsAlwaysRight(s, run[..|run| - 1]);
      EveryRunKeepsMoney(s, run[..|run| - 1]);
      StepKeepsReceipts(RunFrom(s, run[..|run| - 1]), run[|run| - 1]);
    }
  }

  // ---- nothing is booked without an invoice ----

  ghost predicate Invoiced(s: State, i: nat) {
    PayKey(i) in Keys(s.books.journals) || ReleaseKey(i) in Keys(s.books.journals) ==>
      HasInvoice(s.books.invoices, OfOrder(i))
  }

  lemma DeliverInvoices(m: Market, i: nat, year: nat)
    requires MarketInv(m)
    requires PayKey(i) in Keys(m.books.journals) ==> HasInvoice(m.books.invoices, OfOrder(i))
    ensures var after := Deliver(m, i, year).after.books;
            && (forall source :: HasInvoice(m.books.invoices, source) ==> HasInvoice(after.invoices, source))
            && (after != m.books ==> HasInvoice(after.invoices, OfOrder(i)))
  {
    if i < |m.shop.orders| {
      var o := m.shop.orders[i];
      if o.payBy == CashOnDelivery {
        OrderBillAddsUp(i, o);
        IssueKeepsInvoices(m.books, OrderBill(i, o), year);
      } else if PayKey(i) !in Keys(m.books.journals) {
        RecordFacts(m, i, year);
      }
    }
  }

  /** No step loses an invoice. */
  lemma MarketKeepsInvoices(m: Market, t: Tick, source: Source)
    requires MarketInv(m) && MarketStep(t.step) && HasInvoice(m.books.invoices, source)
    requires forall i: nat :: PayKey(i) in Keys(m.books.journals) ==> HasInvoice(m.books.invoices, OfOrder(i))
    ensures HasInvoice(MarketAfter(m, t).books.invoices, source)
  {
    if MarketAfter(m, t).books != m.books {
      match t.step
      case SettleOrderTx(x, paid) => RecordFacts(m, m.shop.orderTxs[x].order, t.year);
      case Release(i) => DeliverInvoices(m, i, t.year);
      case RefundBuyer(i, _) => VoidKeepsInvoices(m.books, OfOrder(i));
      case _ =>
    }
  }

  /** What books a payment or a release issues the invoice with it. */
  lemma MarketInvoices(m: Market, t: Tick, i: nat)
    requires MarketInv(m) && MarketStep(t.step) && (t.step.SettleRequest? ==> t.step.settled != Requested)
    requires PayKey(i) in Keys(m.books.journals) ==> HasInvoice(m.books.invoices, OfOrder(i))
    requires var keys, keys' := Keys(m.books.journals), Keys(MarketAfter(m, t).books.journals);
             (PayKey(i) in keys' && PayKey(i) !in keys) || (ReleaseKey(i) in keys' && ReleaseKey(i) !in keys)
    ensures HasInvoice(MarketAfter(m, t).books.invoices, OfOrder(i))
  {
    if PayKey(i) in Keys(MarketAfter(m, t).books.journals) && PayKey(i) !in Keys(m.books.journals) {
      BookedBy(m, t, i);
    } else {
      StepMarks(m, t, i);
    }
    if t.step == Step.Release(i) {
      DeliverInvoices(m, i, t.year);
    } else {
      RecordFacts(m, i, t.year);
    }
  }

  lemma {:induction false} StepKeepsInvoiced(s: State, t: Tick)
    requires MoneyInv(s) && forall i: nat :: Invoiced(s, i)
    ensures forall i: nat :: Invoiced(After(s, t), i)
  {
    forall i: nat ensures Invoiced(After(s, t), i) {
      assert Invoiced(s, i);
      if t.commits && Possible(s, t.step) {
        if MarketStep(t.step) {
          MarketStaysInvoiced(s, t, i);
        } else {
          TillLeavesMarket(Till(s.books, s.pay), t);
          HalfKeptKeys(s.books, After(s, t).books, false);
        }
      }
    }
  }

  lemma MarketStaysInvoiced(s: State, t: Tick, i: nat)
    requires MoneyInv(s) && (forall k: nat :: Invoiced(s, k)) && t.commits && Possible(s, t.step) && MarketStep(t.step)
    ensures Invoiced(After(s, t), i)
  {
    var m := Market(s.books, s.shop);
    forall k: nat ensures PayKey(k) in Keys(m.books.journals) ==> HasInvoice(m.books.invoices, OfOrder(k)) {
      assert Invoiced(s, k);
    }
    assert Invoiced(s, i);
    if HasInvoice(m.books.invoices, OfOrder(i)) {
      MarketKeepsInvoices(m, t, OfOrder(i));
    } else if PayKey(i) in Keys(After(s, t).books.journals) || ReleaseKey(i) in Keys(After(s, t).books.journals) {
      MarketInvoices(m, t, i);
    }
  }

  /** After every run each order whose payment or earnings are booked has its invoice, cash orders
      included. */
  lemma {:induction false} BookedOrdersAreInvoiced(s: State, run: seq<Tick>)
    requires Fresh(s)
    ensures forall i: nat :: Invoiced(RunFrom(s, run), i)
  {
    if run != [] {
      BookedOrdersAreInvoiced(s, run[..|run| - 1]);
      FreshIsFine(s);
      EveryRunKeepsMoney(s, run[..|run| - 1]);
      StepKeepsInvoiced(RunFrom(s, run[..|run| - 1]), run[|run| - 1]);
    }
  }

  // ---- refunding twice ----

  lemma RefundedIsNewest(txs: seq<OrderTx>, i: nat)
    requires NewestSettled(txs, i).Some?
    ensures var t := NewestSettled(txs, i).value;
            NewestSettled(txs[t := txs[t].(status := Refunded)], i) == Some(t)
  {
    var t := NewestSettled(txs, i).value;
    var after := txs[t := txs[t].(status := Refunded)];
    assert after[t].order == i && after[t].status == Refunded;
    assert forall k | t < k < |txs| :: after[k] == txs[k];
  }

  predicate SawMoney(txs: seq<OrderTx>, x: nat, i: nat) {
    x < |txs| && txs[x].order == i && txs[x].status in {Completed, NeedsReview, Refunded}
  }

  lemma MarketKeepsSettled(m: Market, t: Tick, x: nat, i: nat)
    requires MarketStep(t.step) && SawMoney(m.shop.orderTxs, x, i)
    ensures SawMoney(MarketAfter(m, t).shop.orderTxs, x, i)
  {
  }

  /** A payment row that saw money always counts as such. */
  lemma {:induction false} SettledStays(s: State, run: seq<Tick>, x: nat, i: nat)
    requires SawMoney(s.shop.orderTxs, x, i)
    ensures SawMoney(RunFrom(s, run).shop.orderTxs, x, i)
  {
    if run != [] {
      var before, t := RunFrom(s, run[..|run| - 1]), run[|run| - 1];
      SettledStays(s, run[..|run| - 1], x, i);
      if t.commits && Possible(before, t.step) && MarketStep(t.step) {
        MarketKeepsSettled(Market(before.books, before.shop), t, x, i);
      }
    }
  }

  /** Refunding a refunded order changes nothing, and says why: its newest settled payment is refunded,
      or was flagged again since. */
  lemma AgainIsRefused(m: Market, x: nat, i: nat, again: string)
    requires MarketInv(m) && i in m.shop.refunded && SawMoney(m.shop.orderTxs, x, i) && !Blank(again)
    ensures RefundOrder(m, i, again).after == m
    ensures RefundOrder(m, i, again).reply ==
            if m.shop.orderTxs[NewestSettled(m.shop.orderTxs, i).value].status == Refunded
            then AlreadyRefunded else DuplicateRefund
  {
    OrderIsOK(m, i);
    ReversalIsAccepted(m.books.journals, OfOrder(i), OrderKinds());
  }

  lemma {:induction false} RefundedStays(s: State, x: nat, i: nat, run: seq<Tick>, again: string)
    requires MoneyInv(s) && i in s.shop.refunded && SawMoney(s.shop.orderTxs, x, i) && !Blank(again)
    ensures var late := Market(RunFrom(s, run).books, RunFrom(s, run).shop);
            && RefundOrder(late, i, again).after == late
            && RefundOrder(late, i, again).reply in {AlreadyRefunded, DuplicateRefund}
  {
    RefundIsForever(s, run, i);
    EveryRunKeepsMoney(s, run);
    SettledStays(s, run, x, i);
    AgainIsRefused(Market(RunFrom(s, run).books, RunFrom(s, run).shop), x, i, again);
  }

  lemma RefundedRow(m: Market, i: nat, reference: string)
    requires MarketInv(m) && RefundOrder(m, i, reference).reply == Ok
    ensures var after := RefundOrder(m, i, reference).after;
            && MarketInv(after) && i in after.shop.refunded
            && NewestSettled(after.shop.orderTxs, i) == NewestSettled(m.shop.orderTxs, i)
            && NewestSettled(m.shop.orderTxs, i).Some?
            && after.shop.orderTxs[NewestSettled(m.shop.orderTxs, i).value].status == Refunded
  {
    RefundedIsNewest(m.shop.orderTxs, i);
    RefundKeepsInv(m, i, reference);
  }

  /** After a refund has gone through, whatever happens next, refunding the order again changes nothing. */
  lemma {:induction false} OrderRefundedOnce(s: State, i: nat, reference: string, run: seq<Tick>, again: string)
    requires MoneyInv(s) && RefundOrder(Market(s.books, s.shop), i, reference).reply == Ok && !Blank(again)
    ensures var refunded := RefundOrder(Market(s.books, s.shop), i, reference).after;
            var late := RunFrom(State(refunded.books, refunded.shop, s.pay), run);
            var answer := RefundOrder(Market(late.books, late.shop), i, again);
            && answer.after == Market(late.books, late.shop)
            && answer.reply in {AlreadyRefunded, DuplicateRefund}
            && (run == [] ==> answer.reply == AlreadyRefunded)
  {
    var refunded := RefundOrder(Market(s.books, s.shop), i, reference).after;
    RefundedRow(Market(s.books, s.shop), i, reference);
    AfterRefund(s, i, reference);
    RefundedStays(State(refunded.books, refunded.shop, s.pay), NewestSettled(s.shop.orderTxs, i).value, i, run, again);
    AgainIsRefused(refunded, NewestSettled(s.shop.orderTxs, i).value, i, again);
  }

  lemma AfterRefund(s: State, i: nat, reference: string)
    requires MoneyInv(s)
    ensures var refunded := RefundOrder(Market(s.books, s.shop), i, reference).after;
            MoneyInv(State(refunded.books, refunded.shop, s.pay))
  {
    RefundKeepsInv(Market(s.books, s.shop), i, reference);
    RefundElsewhere(Market(s.books, s.shop), i, reference);
    BooksSurvive(Till(s.books, s.pay), RefundOrder(Market(s.books, s.shop), i, reference).after.books);
  }
}
