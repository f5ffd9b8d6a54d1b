/** What completed and booked marketplace payments say about bKash, over whole runs. */
module Evidence {
  import opened Sums
  import opened Ledger
  import opened Release
  import opened Invoices
  import opened Shop
  import opened MarketSteps
  import opened MarketLaws
  import opened TillSteps
  import opened TillLaws
  import opened Engine
  import opened CouponLaws
  import opened Safety

  /** bKash confirms only sessions whose money it took, for that amount or for none readable; a payment
      row is completed only if it was confirmed, with the amount it charges. */
  ghost predicate OrderEvidenceOK(shop: Shop) {
    && |shop.sessions| == |shop.orderTxs|
    && (forall a | a in shop.answers ::
          a.0 < |shop.sessions| && shop.sessions[a.0].MoneyTaken? && (a.1.None? || a.1 == shop.sessions[a.0].amount))
    && (forall x: nat | x < |shop.orderTxs| && shop.orderTxs[x].status == Completed ::
          Confirmed(shop.answers, x, shop.orderTxs[x].amount))
  }

  /** Some payment of the order was confirmed for what it charges. */
  ghost predicate Backed(shop: Shop, i: nat) {
    exists x: nat ::
      x < |shop.orderTxs| && shop.orderTxs[x].order == i && Confirmed(shop.answers, x, shop.orderTxs[x].amount)
  }

  /** The earnings of a delivered bKash order are to be booked, and its payment never was. */
  predicate BooksUnpaid(s: State, t: Tick, i: nat) {
    && t.commits && t.step == Step.Release(i)
    && i < |s.shop.orders| && s.shop.orders[i].status == Delivered && s.shop.orders[i].payBy == Bkash
    && PayKey(i) !in Keys(s.books.journals) && Bookable(s.shop, s.shop.orders[i])
  }

  ghost predicate NeverBooksUnpaid(s: State, run: seq<Tick>, i: nat) {
    forall k | 0 <= k < |run| :: !BooksUnpaid(RunFrom(s, run[..k]), run[k], i)
  }

  ghost predicate RowsKept(before: Shop, after: Shop) {
    && before.answers <= after.answers
    && |before.orderTxs| <= |after.orderTxs|
    && forall x | 0 <= x < |before.orderTxs| ::
         after.orderTxs[x].order == before.orderTxs[x].order && after.orderTxs[x].amount == before.orderTxs[x].amount
  }

  lemma MarketKeepsRows(m: Market, t: Tick)
    requires MarketStep(t.step)
    ensures RowsKept(m.shop, MarketAfter(m, t).shop)
  {
  }

  lemma SettleKeepsEvidence(m: Market, x: nat, paid: Option<int>, year: nat)
    requires OrderEvidenceOK(m.shop) && (x, paid) in m.shop.answers
    ensures OrderEvidenceOK(SettleOrderPayment(m, x, paid, year).after.shop)
  {
  }

  lemma MarketKeepsEvidence(m: Market, t: Tick)
    requires MarketStep(t.step) && OrderEvidenceOK(m.shop)
    requires t.step.SettleOrderTx? ==> (t.step.tx, t.step.paid) in m.shop.answers
    requires t.step.CloseOrderTx? ==> t.step.closed != Completed
    ensures OrderEvidenceOK(MarketAfter(m, t).shop)
  {
    if t.step.SettleOrderTx? {
      SettleKeepsEvidence(m, t.step.tx, t.step.paid, t.year);
    }
  }

  lemma StepKeepsEvidence(s: State, t: Tick)
    requires OrderEvidenceOK(s.shop)
    ensures OrderEvidenceOK(After(s, t).shop) && RowsKept(s.shop, After(s, t).shop)
  {
    if t.commits && Possible(s, t.step) && MarketStep(t.step) {
      MarketKeepsRows(Market(s.books, s.shop), t);
      MarketKeepsEvidence(Market(s.books, s.shop), t);
    }
  }

  /** The payment journal of an order is written by a fulfilment on a matching confirmation, or by a
      delivery that finds none. */
  lemma BookedBy(m: Market, t: Tick, i: nat)
    requires MarketInv(m) && MarketStep(t.step) && (t.step.SettleRequest? ==> t.step.settled != Requested)
    requires PayKey(i) in Keys(MarketAfter(m, t).books.journals) && PayKey(i) !in Keys(m.books.journals)
    ensures t.step == Step.Release(i) ||
            (t.step.SettleOrderTx? && t.step.tx < |m.shop.orderTxs| && m.shop.orderTxs[t.step.tx].order == i
             && (t.step.paid.Some? ==> t.step.paid.value == m.shop.orderTxs[t.step.tx].amount))
  {
    var source := OneSource(m, t);
    if source != OfOrder(i) {
      OnlyAddsKeys(m.books.journals, MarketAfter(m, t).books.journals, source, PayKey(i));
    } else if t.step.RefundBuyer? {
      RefundedBooks(m, i);
    }
  }

  lemma DeliveryBooksIff(m: Market, i: nat, year: nat)
    requires MarketInv(m) && PayKey(i) !in Keys(m.books.journals)
    ensures PayKey(i) in Keys(Deliver(m, i, year).after.books.journals) <==>
            i < |m.shop.orders| && m.shop.orders[i].status == Delivered && m.shop.orders[i].payBy == Bkash
            && Bookable(m.shop, m.shop.orders[i])
  {
    DeliverKeepsInv(m, i, year);
    OrderIsOK(m, i);
    OrderIsOK(Deliver(m, i, year).after, i);
  }

  lemma StaysBacked(before: Shop, after: Shop, i: nat)
    requires Backed(before, i) && RowsKept(before, after)
    ensures Backed(after, i)
  {
  }

  lemma BookedStays(s: State, t: Tick, i: nat)
    requires MoneyInv(s) && PayKey(i) in Keys(s.books.journals)
    ensures PayKey(i) in Keys(After(s, t).books.journals)
  {
    if t.commits && Possible(s, t.step) {
      if MarketStep(t.step) {
        MarketLeavesTill(Market(s.books, s.shop), t);
        HalfKeptKeys(s.books, After(s, t).books, true);
      } else {
        TillLeavesMarket(TillOf(s), t);
        HalfKeptKeys(s.books, After(s, t).books, false);
      }
    }
  }

  lemma UnpaidIsBooked(s: State, t: Tick, i: nat)
    requires MarketInv(Market(s.books, s.shop)) && BooksUnpaid(s, t, i)
    ensures PayKey(i) in Keys(After(s, t).books.journals)
  {
    DeliveryBooksIff(Market(s.books, s.shop), i, t.year);
    assert MarketAfter(Market(s.books, s.shop), t) == Deliver(Market(s.books, s.shop), i, t.year).after;
  }

  /** An order without a confirmed payment is booked by a delivery that finds it unbooked, and by
      nothing else. */
  lemma {:induction false} StepBooksUnpaidIff(s: State, t: Tick, i: nat)
    requires MoneyInv(s) && !Backed(After(s, t).shop, i)
    ensures PayKey(i) in Keys(After(s, t).books.journals) <==>
            PayKey(i) in Keys(s.books.journals) || BooksUnpaid(s, t, i)
  {
    if PayKey(i) in Keys(s.books.journals) {
      BookedStays(s, t, i);
    } else if BooksUnpaid(s, t, i) {
      UnpaidIsBooked(s, t, i);
    } else if PayKey(i) in Keys(After(s, t).books.journals) {
      UnbookedStays(s, t, i);
    }
  }

  lemma UnbookedStays(s: State, t: Tick, i: nat)
    requires MoneyInv(s) && !Backed(After(s, t).shop, i)
    requires PayKey(i) !in Keys(s.books.journals) && !BooksUnpaid(s, t, i)
    ensures PayKey(i) !in Keys(After(s, t).books.journals)
  {
    if t.commits && Possible(s, t.step) {
      if !MarketStep(t.step) {
        TillLeavesMarket(TillOf(s), t);
        HalfKeptKeys(s.books, After(s, t).books, false);
      } else if PayKey(i) in Keys(After(s, t).books.journals) {
        BookedBy(Market(s.books, s.shop), t, i);
        DeliveryBooksIff(Market(s.books, s.shop), i, t.year);
        MarketKeepsRows(Market(s.books, s.shop), t);
        if t.step.SettleOrderTx? {
          assert Confirmed(s.shop.answers, t.step.tx, s.shop.orderTxs[t.step.tx].amount);
          StaysBacked(s.shop, After(s, t).shop, i);
        }
      }
    }
  }

  /** After every run from a fresh start a completed payment row was really paid: bKash took the money,
      and reported the charged amount or none readable. */
  lemma {:induction false} CompletedWasPaid(s: State, run: seq<Tick>, x: nat)
    requires Fresh(s)
    requires x < |RunFrom(s, run).shop.orderTxs| && RunFrom(s, run).shop.orderTxs[x].status == Completed
    ensures var shop := RunFrom(s, run).shop;
            && x < |shop.sessions| && shop.sessions[x].MoneyTaken?
            && Confirmed(shop.answers, x, shop.orderTxs[x].amount)
            && (shop.sessions[x].amount == Some(shop.orderTxs[x].amount) || (x, None) in shop.answers)
  {
    EveryRunKeepsEvidence(s, run);
  }

  lemma {:induction false} EveryRunKeepsEvidence(s: State, run: seq<Tick>)
    requires OrderEvidenceOK(s.shop) || Fresh(s)
    ensures OrderEvidenceOK(RunFrom(s, run).shop)
  {
    if run != [] {
      EveryRunKeepsEvidence(s, run[..|run| - 1]);
      StepKeepsEvidence(RunFrom(s, run[..|run| - 1]), run[|run| - 1]);
    }
  }

  lemma NeverBooksUnpaidStep(s: State, run: seq<Tick>, i: nat)
    requires run != []
    ensures NeverBooksUnpaid(s, run, i) <==>
            NeverBooksUnpaid(s, run[..|run| - 1], i) && !BooksUnpaid(RunFrom(s, run[..|run| - 1]), run[|run| - 1], i)
  {
    var rest := run[..|run| - 1];
    assert forall k | 0 <= k < |rest| :: rest[..k] == run[..k] && rest[k] == run[k];
    if NeverBooksUnpaid(s, rest, i) && !BooksUnpaid(RunFrom(s, rest), run[|run| - 1], i) {
      forall k | 0 <= k < |run| ensures !BooksUnpaid(RunFrom(s, run[..k]), run[k], i) {
        assert k < |rest| ==> !BooksUnpaid(RunFrom(s, rest[..k]), rest[k], i);
      }
    }
  }

  lemma RowsKeptInStep(s: State, t: Tick)
    ensures RowsKept(s.shop, After(s, t).shop)
  {
    if t.commits && Possible(s, t.step) && MarketStep(t.step) {
      MarketKeepsRows(Market(s.books, s.shop), t);
    }
  }

  /** After every run the ledger holds buyer money for an order that no confirmed payment backs if and
      only if a delivery booked it unpaid; else what is booked was paid. */
  lemma {:induction false} BookedWasPaidIff(s: State, run: seq<Tick>, i: nat)
    requires Fresh(s)
    ensures var after := RunFrom(s, run);
            (PayKey(i) in Keys(after.books.journals) ==> Backed(after.shop, i)) <==>
            Backed(after.shop, i) || NeverBooksUnpaid(s, run, i)
  {
    if run != [] && !Backed(RunFrom(s, run).shop, i) {
      var rest, t := run[..|run| - 1], run[|run| - 1];
      FreshIsFine(s);
      EveryRunKeepsMoney(s, rest);
      RowsKeptInStep(RunFrom(s, rest), t);
      if Backed(RunFrom(s, rest).shop, i) {
        StaysBacked(RunFrom(s, rest).shop, RunFrom(s, run).shop, i);
      }
      BookedWasPaidIff(s, rest, i);
      NeverBooksUnpaidStep(s, run, i);
      StepBooksUnpaidIff(RunFrom(s, rest), t, i);
    }
  }

  /** How that happens: a seller marks an order delivered that nobody paid. Its total is booked as money
      at bKash and its sellers' earnings are released. */
  lemma UnpaidDeliveryIsBooked(m: Market, i: nat, year: nat)
    requires MarketInv(m) && i < |m.shop.orders| && m.shop.orders[i].status == PendingPayment
    requires m.shop.orders[i].payBy == Bkash && Bookable(m.shop, m.shop.orders[i])
    ensures var delivered := Transition(m, i, Delivered).after;
            var booked := Deliver(delivered, i, year);
            && booked.reply == Ok
            && PayKey(i) in Keys(booked.after.books.journals) && ReleaseKey(i) in Keys(booked.after.books.journals)
            && booked.after.shop.answers == m.shop.answers && booked.after.shop.sessions == m.shop.sessions
  {
    var delivered := Transition(m, i, Delivered).after;
    TransitionKeepsInv(m, i, Delivered);
    OrderIsOK(m, i);
    DeliverKeepsInv(delivered, i, year);
    DeliveryBooksIff(delivered, i, year);
  }
}
