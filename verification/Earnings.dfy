/** What sellers earned, had taken back and were paid, over every run. */
module Earnings {
  import opened Sums
  import opened Ledger
  import opened Commission
  import opened Release
  import opened Shop
  import opened MarketSteps
  import opened MarketLaws
  import opened TillSteps
  import opened TillLaws
  import opened Engine
  import opened ClosedForms
  import opened Safety
  import opened Payouts

  /** The order's earnings were booked, and the seller is not the platform. */
  predicate Credited(s: State, id: nat, i: nat) {
    i < |s.shop.orders| && ReleaseKey(i) in Keys(s.books.journals) && id !in Platform(s.shop.merchants)
  }

  /** What an order paid by bKash brought the seller when it was released. */
  function Earned(s: State, id: nat): nat -> int {
    (i: nat) => if Credited(s, id, i) && s.shop.orders[i].payBy == Bkash then SellerShare(s.shop.orders[i], id) else 0
  }

  /** What was debited again from outside: commission on a cash sale, and a refunded sale's earnings. */
  function TakenBack(s: State, id: nat): nat -> int {
    (i: nat) =>
      if !Credited(s, id, i) then 0
      else if s.shop.orders[i].payBy == CashOnDelivery then WeighOf(s.shop.orders[i].items, id, CommissionWeight())
      else if i in s.shop.refunded then SellerShare(s.shop.orders[i], id) else 0
  }

  /** Payouts requested or sent. */
  function PaidOut(s: State, id: nat): nat -> int {
    (k: nat) =>
      if k < |s.shop.payouts| && s.shop.payouts[k].merchant == id && s.shop.payouts[k].status != Rejected
      then s.shop.payouts[k].amount else 0
  }

  function TotalEarned(s: State, id: nat): int { SumTo(|s.shop.orders|, Earned(s, id)) }

  function TotalTakenBack(s: State, id: nat): int { SumTo(|s.shop.orders|, TakenBack(s, id)) }

  function TotalPaidOut(s: State, id: nat): int { SumTo(|s.shop.payouts|, PaidOut(s, id)) }

  /** A seller's balance is earnings less what was taken back and what was paid out. */
  lemma BalanceSplits(s: State, id: nat)
    requires MoneyInv(s)
    ensures Balance(s.books.journals, MerchantAccount(id)) ==
            TotalEarned(s, id) - TotalTakenBack(s, id) - TotalPaidOut(s, id)
  {
    SellerBalance(s, id);
    forall i: nat | i < |s.shop.orders|
      ensures OrderShare(s, MerchantAccount(id))(i) == Earned(s, id)(i) - TakenBack(s, id)(i)
    {
      OrderIsOK(Market(s.books, s.shop), i);
    }
    SumToDifference(|s.shop.orders|, OrderShare(s, MerchantAccount(id)), Earned(s, id), TakenBack(s, id));
    PaidOutNegates(s, id);
  }

  lemma PaidOutNegates(s: State, id: nat)
    ensures SumTo(|s.shop.payouts|, PayoutShare(s, MerchantAccount(id))) == -TotalPaidOut(s, id)
  {
    var none: nat -> int := (k: nat) => 0;
    SumToZero(|s.shop.payouts|, none);
    SumToDifference(|s.shop.payouts|, PayoutShare(s, MerchantAccount(id)), none, PaidOut(s, id));
  }

  // ---- released orders had shares the ledger takes ----

  ghost predicate ReleasesOK(s: State) {
    forall i: nat | i < |s.shop.orders| && ReleaseKey(i) in Keys(s.books.journals) ::
      SharesOk(s.shop.orders[i].payBy == Bkash, Platform(s.shop.merchants), s.shop.orders[i].items)
  }

  lemma ReleasedOnlyIfOk(m: Market, i: nat, year: nat)
    requires MarketInv(m) && i < |m.shop.orders|
    requires ReleaseKey(i) in Keys(Deliver(m, i, year).after.books.journals) && ReleaseKey(i) !in Keys(m.books.journals)
    ensures Bookable(m.shop, m.shop.orders[i])
  {
    DeliverKeepsInv(m, i, year);
  }

  lemma StepKeepsReleases(s: State, t: Tick)
    requires MoneyInv(s) && ReleasesOK(s)
    ensures ReleasesOK(After(s, t))
  {
    var after := After(s, t);
    forall i: nat | i < |after.shop.orders| && ReleaseKey(i) in Keys(after.books.journals)
      ensures SharesOk(after.shop.orders[i].payBy == Bkash, Platform(after.shop.merchants), after.shop.orders[i].items)
    {
      Marks(s, t, i);
      if i < |s.shop.orders| {
        TermsStay(s, t, i);
        if ReleaseKey(i) !in Keys(s.books.journals) {
          ReleasedOnlyIfOk(Market(s.books, s.shop), i, t.year);
        }
      } else {
        KnownOrders(Market(s.books, s.shop), i);
      }
    }
  }

  /** Neither earnings nor what is taken back is ever negative. */
  lemma {:induction false} SharesNonNegative(s: State, id: nat, i: nat)
    requires ReleasesOK(s)
    ensures Earned(s, id)(i) >= 0 && TakenBack(s, id)(i) >= 0
  {
    if Credited(s, id, i) {
      var o := s.shop.orders[i];
      if id in Sellers(o.items) {
        assert ShareOk(o.payBy == Bkash, false, ShareOf(o.items, id));
      } else {
        SellersFacts(o.items);
        NoneSold(o.items, id);
      }
      ShareSplits(o.items, id);
    }
  }

  lemma NoneSold(items: seq<Item>, id: nat)
    requires forall it | it in items :: it.merchant != id
    ensures ShareOf(items, id) == Share(0, 0)
  {
    NoSum(items, Only(id, GrossWeight()));
    NoSum(items, Only(id, CommissionWeight()));
  }

  lemma {:induction false} ShareSplits(items: seq<Item>, id: nat)
    ensures WeighOf(items, id, LedgerNet()) == ShareOf(items, id).gross - ShareOf(items, id).commission
    ensures WeighOf(items, id, CommissionWeight()) == ShareOf(items, id).commission
  {
    if items != [] {
      ShareSplits(items[..|items| - 1], id);
    }
  }

  // ---- earnings cover payouts ----

  function Reserved(s: State, id: nat): int {
    if id in s.shop.reserving then s.shop.reserving[id] else 0
  }

  /** Earnings cover what was paid out and the request that is under way. */
  predicate PayoutsCovered(s: State, id: nat) {
    TotalEarned(s, id) - TotalPaidOut(s, id) >= Reserved(s, id)
  }

  lemma EarningsRise(s: State, t: Tick, id: nat)
    requires MoneyInv(s) && ReleasesOK(s)
    ensures TotalEarned(s, id) <= TotalEarned(After(s, t), id)
  {
    var after := After(s, t);
    StepKeepsReleases(s, t);
    OrdersGrow(s, t);
    forall i: nat ensures i < |s.shop.orders| ==> Earned(s, id)(i) <= Earned(after, id)(i)
      ensures Earned(after, id)(i) >= 0
    {
      SharesNonNegative(after, id, i);
      Marks(s, t, i);
      if i < |s.shop.orders| {
        TermsStay(s, t, i);
      }
    }
    SumToRises(|s.shop.orders|, |after.shop.orders|, Earned(s, id), Earned(after, id));
  }

  lemma OrdersGrow(s: State, t: Tick)
    requires MoneyInv(s)
    ensures |s.shop.orders| <= |After(s, t).shop.orders|
  {
    StepKeepsMoney(s, t);
  }

  lemma PaidOutPush(s: State, after: State, id: nat, amount: int)
    requires after.shop.payouts == s.shop.payouts + [Payout(id, amount, Requested)]
    ensures TotalPaidOut(after, id) == TotalPaidOut(s, id) + amount
  {
    SumToSame(|s.shop.payouts|, PaidOut(s, id), PaidOut(after, id));
  }

  lemma CommitWrites(s: State, t: Tick, id: nat)
    requires MarketInv(Market(s.books, s.shop)) && t.commits && t.step == CommitRequest(id)
    ensures After(s, t).shop.payouts ==
            s.shop.payouts + (if id in s.shop.reserving then [Payout(id, s.shop.reserving[id], Requested)] else [])
    ensures id !in After(s, t).shop.reserving
  {
    CommitKeepsInv(Market(s.books, s.shop), id);
    assert After(s, t).shop == CommitPayout(Market(s.books, s.shop), id).shop;
  }

  /** Writing a request pays out just what was reserved. */
  lemma CommitPaysReserved(s: State, t: Tick, id: nat)
    requires MarketInv(Market(s.books, s.shop)) && t.commits && t.step == CommitRequest(id)
    ensures TotalPaidOut(After(s, t), id) == TotalPaidOut(s, id) + Reserved(s, id)
    ensures Reserved(After(s, t), id) == 0
  {
    CommitWrites(s, t, id);
    if id in s.shop.reserving {
      PaidOutPush(s, After(s, t), id, s.shop.reserving[id]);
    } else {
      SumToSame(|s.shop.payouts|, PaidOut(s, id), PaidOut(After(s, t), id));
    }
  }

  lemma StepKeepsCovered(s: State, t: Tick, id: nat)
    requires MoneyInv(s) && ReleasesOK(s) && PayoutsCovered(s, id)
    ensures PayoutsCovered(After(s, t), id)
  {
    EarningsRise(s, t, id);
    if t.commits && t.step == CommitRequest(id) {
      CommitPaysReserved(s, t, id);
    } else {
      PayoutShareRises(s, t, id);
      PaidOutNegates(s, id);
      PaidOutNegates(After(s, t), id);
      Reservation(s, t, id);
      ReservedIsThere(s, id);
    }
  }

  /** What the balance covers, earnings less payouts cover too. */
  lemma ReservedIsThere(s: State, id: nat)
    requires MoneyInv(s) && ReleasesOK(s)
    ensures Balance(s.books.journals, MerchantAccount(id)) <= TotalEarned(s, id) - TotalPaidOut(s, id)
    ensures Reserved(s, id) >= 0
  {
    BalanceSplits(s, id);
    forall i: nat | i < |s.shop.orders| ensures TakenBack(s, id)(i) >= 0 {
      SharesNonNegative(s, id, i);
    }
    SumToNonNegative(|s.shop.orders|, TakenBack(s, id));
  }

  lemma {:induction false} EveryRunKeepsCovered(s: State, run: seq<Tick>, id: nat)
    requires Fresh(s)
    ensures MoneyInv(RunFrom(s, run)) && ReleasesOK(RunFrom(s, run)) && PayoutsCovered(RunFrom(s, run), id)
  {
    FreshIsFine(s);
    EveryRunKeepsMoney(s, run);
    if run != [] {
      var rest := run[..|run| - 1];
      EveryRunKeepsCovered(s, rest, id);
      StepKeepsReleases(RunFrom(s, rest), run[|run| - 1]);
      StepKeepsCovered(RunFrom(s, rest), run[|run| - 1], id);
    }
  }

  /** After every run from a fresh start a seller was never paid more than was earned, however requests,
      roll-backs, releases and refunds interleave. So the balance is below zero exactly when what cash
      commission and refunds took back outweighs the earnings not paid out. */
  lemma {:induction false} PaidOnlyFromEarnings(s: State, run: seq<Tick>, id: nat)
    requires Fresh(s)
    ensures var after := RunFrom(s, run);
            var balance := Balance(after.books.journals, MerchantAccount(id));
            && 0 <= TotalPaidOut(after, id) <= TotalEarned(after, id)
            && TotalTakenBack(after, id) >= 0 && balance + TotalTakenBack(after, id) >= 0
            && (balance < 0 <==> TotalTakenBack(after, id) > TotalEarned(after, id) - TotalPaidOut(after, id))
  {
    var after := RunFrom(s, run);
    EveryRunKeepsCovered(s, run, id);
    BalanceSplits(after, id);
    ReservedIsThere(after, id);
    PaidOutNonNegative(after, id);
  }

  lemma PaidOutNonNegative(s: State, id: nat)
    requires MoneyInv(s)
    ensures TotalPaidOut(s, id) >= 0
  {
    var keys := Keys(s.books.journals);
    forall k: nat | k < |s.shop.payouts| ensures PaidOut(s, id)(k) >= 0 {
      assert PayoutOK(s.shop.payouts[k], Key(PayoutRequest, OfPayout(k)) in keys, Key(PayoutPaid, OfPayout(k)) in keys,
                      Key(PayoutRejected, OfPayout(k)) in keys);
    }
    SumToNonNegative(|s.shop.payouts|, PaidOut(s, id));
  }
}
