/** Safety over whole runs: money, refunds and payouts. */
module Safety {
  import opened Sums
  import opened Ledger
  import opened Release
  import opened Invoices
  import opened Shop
  import opened MarketSteps
  import opened MarketLaws
  import opened TillSteps
  import opened TillLaws
  import opened Engine
  import opened ClosedForms

  // ---- the admin's summary ----

  /** After every run from a fresh start the figures of the summary add up. */
  lemma {:induction false} SummaryAddsUp(s: State, run: seq<Tick>)
    requires Fresh(s)
    ensures var js := RunFrom(s, run).books.journals;
            -Balance(js, GatewayBkash) ==
            TotalRevenue(js) + MerchantPayable(js) + Balance(js, PayoutsPending) + Balance(js, CashOut)
              + Balance(js, OrdersEscrow)
  {
    FreshIsFine(s);
    EveryRunKeepsMoney(s, run);
    AccountingIdentity(RunFrom(s, run).books.journals);
  }

  /** A released, unrefunded bKash order whose delivery charge is negative. */
  predicate Overdraws(s: State, i: nat) {
    && i < |s.shop.orders| && s.shop.orders[i].payBy == Bkash && s.shop.orders[i].delivery < 0
    && ReleaseKey(i) in Keys(s.books.journals) && i !in s.shop.refunded
  }

  /** What is held for an order: its total once paid, its delivery charge once released. */
  function HeldFor(s: State): nat -> int {
    (i: nat) =>
      var keys := Keys(s.books.journals);
      if i >= |s.shop.orders| || PayKey(i) !in keys || i in s.shop.refunded then 0
      else if ReleaseKey(i) !in keys then s.shop.orders[i].total
      else if s.shop.orders[i].delivery < 0 then 0 else s.shop.orders[i].delivery
  }

  function OverdrawnBy(s: State): nat -> int {
    (i: nat) => if Overdraws(s, i) then -s.shop.orders[i].delivery else 0
  }

  /** An order takes more out of escrow than was put in exactly when it was released with a negative
      delivery charge; and nothing is released unpaid. */
  lemma EscrowShareNegativeIff(s: State, i: nat)
    requires MoneyInv(s) && i < |s.shop.orders|
    ensures OrderShare(s, OrdersEscrow)(i) < 0 <==> Overdraws(s, i)
    ensures OrderShare(s, OrdersEscrow)(i) == HeldFor(s)(i) - OverdrawnBy(s)(i) && HeldFor(s)(i) >= 0
    ensures s.shop.orders[i].payBy == Bkash && ReleaseKey(i) in Keys(s.books.journals) ==>
            PayKey(i) in Keys(s.books.journals)
  {
    OrderIsOK(Market(s.books, s.shop), i);
  }

  /** Escrow holds what was paid for orders not yet released or refunded, and the delivery charge of the
      released ones, less the negative charges; it is overdrawn exactly when those outweigh the rest. */
  lemma EscrowBalance(s: State)
    requires MoneyInv(s)
    ensures var n := |s.shop.orders|;
            && Balance(s.books.journals, OrdersEscrow) == SumTo(n, HeldFor(s)) - SumTo(n, OverdrawnBy(s))
            && (Balance(s.books.journals, OrdersEscrow) < 0 <==> SumTo(n, OverdrawnBy(s)) > SumTo(n, HeldFor(s)))
    ensures (forall i: nat :: !Overdraws(s, i)) ==> Balance(s.books.journals, OrdersEscrow) >= 0
  {
    LedgerMatchesBusiness(s, OrdersEscrow);
    SumToZero(|s.pay.payments|, PaymentShare(s, OrdersEscrow));
    SumToZero(|s.shop.payouts|, PayoutShare(s, OrdersEscrow));
    forall i: nat | i < |s.shop.orders|
      ensures OrderShare(s, OrdersEscrow)(i) == HeldFor(s)(i) - OverdrawnBy(s)(i) && HeldFor(s)(i) >= 0
    {
      EscrowShareNegativeIff(s, i);
    }
    SumToDifference(|s.shop.orders|, OrderShare(s, OrdersEscrow), HeldFor(s), OverdrawnBy(s));
    if forall i: nat :: !Overdraws(s, i) {
      SumToNonNegative(|s.shop.orders|, HeldFor(s));
      SumToZero(|s.shop.orders|, OverdrawnBy(s));
    }
  }

  /** A seller's balance: earnings of released, unrefunded orders less payouts requested or sent. */
  lemma SellerBalance(s: State, m: nat)
    requires MoneyInv(s)
    ensures Balance(s.books.journals, MerchantAccount(m)) ==
            SumTo(|s.shop.orders|, OrderShare(s, MerchantAccount(m)))
              + SumTo(|s.shop.payouts|, PayoutShare(s, MerchantAccount(m)))
  {
    LedgerMatchesBusiness(s, MerchantAccount(m));
    SumToZero(|s.pay.payments|, PaymentShare(s, MerchantAccount(m)));
  }

  /** What is pending is what was requested and not settled; what is out is what was transferred. */
  lemma PayoutBalances(s: State)
    requires MoneyInv(s)
    ensures Balance(s.books.journals, PayoutsPending) == SumTo(|s.shop.payouts|, PayoutShare(s, PayoutsPending)) >= 0
    ensures Balance(s.books.journals, CashOut) == SumTo(|s.shop.payouts|, PayoutShare(s, CashOut)) >= 0
  {
    forall a | a in {PayoutsPending, CashOut}
      ensures Balance(s.books.journals, a) == SumTo(|s.shop.payouts|, PayoutShare(s, a)) >= 0
    {
      LedgerMatchesBusiness(s, a);
      SumToZero(|s.shop.orders|, OrderShare(s, a));
      SumToZero(|s.pay.payments|, PaymentShare(s, a));
      PayoutSharesNonNegative(s, a);
    }
  }

  lemma PayoutSharesNonNegative(s: State, a: Account)
    requires MoneyInv(s) && a in {PayoutsPending, CashOut}
    ensures SumTo(|s.shop.payouts|, PayoutShare(s, a)) >= 0
  {
    var keys := Keys(s.books.journals);
    forall k: nat | k < |s.shop.payouts| ensures PayoutShare(s, a)(k) >= 0 {
      assert PayoutOK(s.shop.payouts[k], Key(PayoutRequest, OfPayout(k)) in keys, Key(PayoutPaid, OfPayout(k)) in keys,
                      Key(PayoutRejected, OfPayout(k)) in keys);
    }
    SumToNonNegative(|s.shop.payouts|, PayoutShare(s, a));
  }

  function CompletedAmount(s: State): nat -> int {
    (p: nat) => if p < |s.pay.payments| && s.pay.payments[p].status == Completed then s.pay.payments[p].amount else 0
  }

  /** Subscription revenue is what was booked and not reversed; as long as no refunded payment is
      granted again, that is exactly what the completed payments charged. */
  lemma SubscriptionRevenue(s: State)
    requires MoneyInv(s)
    ensures Balance(s.books.journals, RevenueSubs) == SumTo(|s.pay.payments|, PaymentShare(s, RevenueSubs))
    ensures StateInv(s) ==> Balance(s.books.journals, RevenueSubs) == SumTo(|s.pay.payments|, CompletedAmount(s))
  {
    LedgerMatchesBusiness(s, RevenueSubs);
    SumToZero(|s.shop.orders|, OrderShare(s, RevenueSubs));
    SumToZero(|s.shop.payouts|, PayoutShare(s, RevenueSubs));
    if StateInv(s) {
      var keys := Keys(s.books.journals);
      forall p: nat | p < |s.pay.payments| ensures PaymentShare(s, RevenueSubs)(p) == CompletedAmount(s)(p) {
        assert PaymentOK(s.pay.payments[p], SubKey(p) in keys, SubRefundKey(p) in keys,
                         HasInvoice(s.books.invoices, OfPayment(p)), p in s.pay.refunded);
      }
      SumToSame(|s.pay.payments|, PaymentShare(s, RevenueSubs), CompletedAmount(s));
    }
  }

  /** All of the above in one statement over runs: from a fresh start every account always holds what
      the orders, payments and payouts say. */
  lemma {:induction false} LedgerMatchesBusinessAlways(s: State, run: seq<Tick>, a: Account)
    requires Fresh(s)
    ensures Balance(RunFrom(s, run).books.journals, a) == Expected(RunFrom(s, run), a)
  {
    FreshIsFine(s);
    EveryRunKeepsMoney(s, run);
    LedgerMatchesBusiness(RunFrom(s, run), a);
  }

  // ---- what a step can do to an order's journals ----

  lemma OnlyAddsKeys(before: seq<Journal>, after: seq<Journal>, source: Source, k: Key)
    requires OnlyAdds(before, after, source) && k.source != source
    ensures k in Keys(after) <==> k in Keys(before)
  {
  }

  /** Every step writes for one business object only, and never for a refunded order. */
  lemma OneSource(m: Market, t: Tick) returns (source: Source)
    requires MarketInv(m) && MarketStep(t.step) && (t.step.SettleRequest? ==> t.step.settled != Requested)
    requires MarketAfter(m, t).books != m.books
    ensures OnlyAdds(m.books.journals, MarketAfter(m, t).books.journals, source)
    ensures source.OfOrder? ==>
            || (t.step.SettleOrderTx? && m.shop.orderTxs[t.step.tx].order == source.order)
            || t.step == Step.Release(source.order)
            || (t.step.RefundBuyer? && t.step.order == source.order)
    ensures source.OfOrder? ==> source.order < |m.shop.orders| && source.order !in m.shop.refunded
  {
    match t.step
    case SettleOrderTx(x, paid) =>
      SettleSource(m, x, paid, t.year);
      source := OfOrder(m.shop.orderTxs[x].order);
    case Release(k) =>
      DeliverKeepsInv(m, k, t.year);
      OrderIsOK(m, k);
      source := OfOrder(k);
    case CommitRequest(id) =>
      CommitKeepsInv(m, id);
      source := OfPayout(|m.shop.payouts|);
    case SettleRequest(k, settled) =>
      SettlePayoutKeepsInv(m, k, settled);
      source := OfPayout(k);
    case RefundBuyer(k, reference) =>
      RefundSource(m, k, reference);
      source := OfOrder(k);
  }

  lemma SettleSource(m: Market, x: nat, paid: Option<int>, year: nat)
    requires MarketInv(m) && SettleOrderPayment(m, x, paid, year).after.books != m.books
    ensures x < |m.shop.orderTxs| && m.shop.orderTxs[x].order < |m.shop.orders|
            && m.shop.orderTxs[x].order !in m.shop.refunded
    ensures OnlyAdds(m.books.journals, SettleOrderPayment(m, x, paid, year).after.books.journals,
                     OfOrder(m.shop.orderTxs[x].order))
  {
  }

  lemma RefundSource(m: Market, k: nat, reference: string)
    requires MarketInv(m) && RefundOrder(m, k, reference).after.books != m.books
    ensures k < |m.shop.orders| && k !in m.shop.refunded
    ensures OnlyAdds(m.books.journals, RefundOrder(m, k, reference).after.books.journals, OfOrder(k))
  {
    RefundKeepsInv(m, k, reference);
  }

  lemma OrderIsOK(m: Market, i: nat)
    requires MarketInv(m)
    ensures i < |m.shop.orders| ==>
              var keys := Keys(m.books.journals);
              OrderOK(m.shop.orders[i], PayKey(i) in keys, ReleaseKey(i) in keys, PayRefundKey(i) in keys,
                      ReleaseRefundKey(i) in keys, i in m.shop.refunded)
  {
  }

  lemma SettleReleasesNone(m: Market, x: nat, paid: Option<int>, year: nat, i: nat)
    requires MarketInv(m)
    ensures ReleaseKey(i) in Keys(SettleOrderPayment(m, x, paid, year).after.books.journals) <==>
            ReleaseKey(i) in Keys(m.books.journals)
  {
    if x < |m.shop.orderTxs| && m.shop.orderTxs[x].order < |m.shop.orders| {
      RecordFacts(m, m.shop.orderTxs[x].order, year);
    }
  }

  lemma RefundReleasesNone(m: Market, i: nat, reference: string)
    requires MarketInv(m)
    ensures ReleaseKey(i) in Keys(RefundOrder(m, i, reference).after.books.journals) <==>
            ReleaseKey(i) in Keys(m.books.journals)
  {
    if i < |m.shop.orders| {
      RefundedBooks(m, i);
    }
  }

  /** Only a release writes a release journal, and only a refund marks an order refunded; each for
      the order it names. */
  lemma {:induction false} StepMarks(m: Market, t: Tick, i: nat)
    requires MarketInv(m) && MarketStep(t.step) && (t.step.SettleRequest? ==> t.step.settled != Requested)
    ensures var keys, keys' := Keys(m.books.journals), Keys(MarketAfter(m, t).books.journals);
            && (ReleaseKey(i) in keys ==> ReleaseKey(i) in keys')
            && (ReleaseKey(i) in keys' && ReleaseKey(i) !in keys ==> t.step == Step.Release(i))
  {
    if MarketAfter(m, t).books != m.books {
      var source := OneSource(m, t);
      if source != OfOrder(i) {
        OnlyAddsKeys(m.books.journals, MarketAfter(m, t).books.journals, source, ReleaseKey(i));
      } else if t.step.SettleOrderTx? {
        SettleReleasesNone(m, t.step.tx, t.step.paid, t.year, i);
      } else if t.step.RefundBuyer? {
        RefundReleasesNone(m, i, t.step.reference);
      } else {
        DeliverKeepsInv(m, i, t.year);
      }
    }
  }

  lemma RefundMarks(m: Market, t: Tick, i: nat)
    requires MarketStep(t.step)
    ensures i in m.shop.refunded ==> i in MarketAfter(m, t).shop.refunded
    ensures i in MarketAfter(m, t).shop.refunded && i !in m.shop.refunded ==> t.step.RefundBuyer? && t.step.order == i
  {
  }

  // ---- refunds are final ----

  /** Credit minus debit of an account over the journals of one source. */
  function SourceBalance(journals: seq<Journal>, source: Source, a: Account): int {
    if journals == [] then 0 else
      var j := journals[|journals| - 1];
      SourceBalance(journals[..|journals| - 1], source, a) + if j.key.source == source then Net(j.entries, a) else 0
  }

  lemma {:induction false} SourceBalanceIsPart(journals: seq<Journal>, source: Source, kinds: seq<Kind>,
                                               net: Key -> int, a: Account)
    requires forall j | j in journals ::
               Net(j.entries, a) == net(j.key) && (j.key.source == source ==> j.key.kind in kinds)
    requires forall x, y | 0 <= x < y < |journals| :: journals[x].key != journals[y].key
    requires forall x, y | 0 <= x < y < |kinds| :: kinds[x] != kinds[y]
    ensures SourceBalance(journals, source, a) == KindsNet(Keys(journals), source, kinds, net)
  {
    if journals == [] {
      KindsNetEmpty(source, kinds, net);
      assert Keys(journals) == {};
    } else {
      var rest, j := journals[..|journals| - 1], journals[|journals| - 1];
      assert forall x | x in rest :: x in journals;
      SourceBalanceIsPart(rest, source, kinds, net, a);
      LastKeyIsNew(journals);
      if j.key.source == source {
        KindsNetAdds(Keys(rest), j.key, kinds, net);
      } else {
        KindsNetOther(Keys(rest), j.key, source, kinds, net);
      }
    }
  }

  /** The journals of a refunded order cancel out, account by account. */
  lemma RefundedOrderNetsZero(s: State, i: nat, a: Account)
    requires MoneyInv(s) && i in s.shop.refunded
    ensures SourceBalance(s.books.journals, OfOrder(i), a) == 0
  {
    assert i < |s.shop.orders|;
    JournalsPlaced(s, a);
    SourceBalanceIsPart(s.books.journals, OfOrder(i), ORDER_KINDS, StateNet(s, a), a);
    OrderAmounts(s, a, i);
  }

  /** No step ever posts for a refunded order again. */
  lemma {:induction false} RefundSeals(m: Market, t: Tick, i: nat, k: Key)
    requires MarketInv(m) && MarketStep(t.step) && (t.step.SettleRequest? ==> t.step.settled != Requested)
    requires i in m.shop.refunded && k.source == OfOrder(i)
    ensures k in Keys(MarketAfter(m, t).books.journals) <==> k in Keys(m.books.journals)
  {
    if MarketAfter(m, t).books != m.books {
      var source := OneSource(m, t);
      OnlyAddsKeys(m.books.journals, MarketAfter(m, t).books.journals, source, k);
    }
  }

  lemma StepKeepsRefund(s: State, t: Tick, i: nat, k: Key)
    requires MoneyInv(s) && i in s.shop.refunded && k.source == OfOrder(i)
    ensures i in After(s, t).shop.refunded
    ensures k in Keys(After(s, t).books.journals) <==> k in Keys(s.books.journals)
  {
    if t.commits && Possible(s, t.step) {
      if MarketStep(t.step) {
        RefundMarks(Market(s.books, s.shop), t, i);
        RefundSeals(Market(s.books, s.shop), t, i, k);
      } else {
        TillLeavesMarket(Till(s.books, s.pay), t);
        HalfKeptKeys(s.books, After(s, t).books, false);
      }
    }
  }

  /** Once an order is refunded, before or after its delivery, every account's net effect from it is
      zero and stays zero: no later payment, delivery or second refund ever posts for it. */
  lemma {:induction false} RefundIsForever(s: State, run: seq<Tick>, i: nat)
    requires MoneyInv(s) && i in s.shop.refunded
    ensures i in RunFrom(s, run).shop.refunded
    ensures forall a :: SourceBalance(RunFrom(s, run).books.journals, OfOrder(i), a) == 0
    ensures forall k: Key | k.source == OfOrder(i) ::
              k in Keys(RunFrom(s, run).books.journals) <==> k in Keys(s.books.journals)
  {
    EveryRunKeepsMoney(s, run);
    if run != [] {
      var before, t := RunFrom(s, run[..|run| - 1]), run[|run| - 1];
      EveryRunKeepsMoney(s, run[..|run| - 1]);
      RefundIsForever(s, run[..|run| - 1], i);
      StepKeepsRefund(before, t, i, PayKey(i));
      forall k: Key | k.source == OfOrder(i)
        ensures k in Keys(After(before, t).books.journals) <==> k in Keys(s.books.journals)
      {
        StepKeepsRefund(before, t, i, k);
      }
    }
    forall a ensures SourceBalance(RunFrom(s, run).books.journals, OfOrder(i), a) == 0 {
      RefundedOrderNetsZero(RunFrom(s, run), i, a);
    }
  }

  /** Exactly when a refund goes through. */
  lemma RefundSucceedsIff(m: Market, i: nat, reference: string)
    requires MarketInv(m)
    ensures RefundOrder(m, i, reference).reply == Ok <==>
            && !Blank(reference)
            && i < |m.shop.orders| && m.shop.orders[i].payBy == Bkash && i !in m.shop.refunded
            && NewestSettled(m.shop.orderTxs, i).Some?
            && m.shop.orderTxs[NewestSettled(m.shop.orderTxs, i).value].status != Refunded
    ensures RefundOrder(m, i, reference).reply == Ok ==> i in RefundOrder(m, i, reference).after.shop.refunded
  {
    ReversalIsAccepted(m.books.journals, OfOrder(i), OrderKinds());
  }
}
