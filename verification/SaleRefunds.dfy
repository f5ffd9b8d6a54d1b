/** What a refund of a subscription payment settles, over whole runs. */
module SaleRefunds {
  import opened Sums
  import opened Ledger
  import opened Invoices
  import opened Subscriptions
  import opened Shop
  import opened MarketSteps
  import opened MarketLaws
  import opened TillSteps
  import opened TillLaws
  import opened Engine
  import opened CouponLaws
  import opened ClosedForms
  import opened Safety

  /** The journals of the payment cancel out on every account. */
  ghost predicate NetsZero(s: State, p: nat) {
    forall a :: SourceBalance(s.books.journals, OfPayment(p), a) == 0
  }

  lemma NetsZeroIff(s: State, p: nat)
    requires MoneyInv(s) && p < |s.pay.payments|
    ensures NetsZero(s, p) <==>
            || SubKey(p) !in Keys(s.books.journals) || SubRefundKey(p) in Keys(s.books.journals)
            || s.pay.payments[p].amount == 0
  {
    forall a ensures SourceBalance(s.books.journals, OfPayment(p), a) == PaymentShare(s, a)(p) {
      JournalsPlaced(s, a);
      SourceBalanceIsPart(s.books.journals, OfPayment(p), PAYMENT_KINDS, StateNet(s, a), a);
      PaymentAmounts(s, a, p);
    }
    assert NetsZero(s, p) ==> SourceBalance(s.books.journals, OfPayment(p), RevenueSubs) == 0;
  }

  /** A fulfilment of a payment that never was granted, on a matching answer. */
  predicate GrantsFirst(s: State, t: Tick, p: nat) {
    && t.commits && t.step.Fulfil? && t.step.payment == p && (p, t.step.paid) in s.pay.reports
    && p < |s.pay.payments| && var pm := s.pay.payments[p];
    && pm.subscription.None? && pm.amount > 0 && (t.step.paid.Some? ==> t.step.paid.value == pm.amount)
    && pm.user < |s.pay.accounts| && pm.plan < |s.pay.plans|
  }

  ghost predicate NeverGrantsFirst(s: State, run: seq<Tick>, p: nat) {
    forall k | 0 <= k < |run| :: !GrantsFirst(RunFrom(s, run[..k]), run[k], p)
  }

  // ---- one step ----

  /** Nothing but a fulfilment on a matching answer books a payment. */
  lemma SettleBooksIff(x: Till, q: nat, paid: Option<int>, now: int, year: nat, p: nat)
    requires BooksOK(x) && CouponInv(x)
    ensures var keys := Keys(Settle(x, q, paid, now, year).after.books.journals);
            && (SubRefundKey(p) in keys <==> SubRefundKey(p) in Keys(x.books.journals))
            && (SubKey(p) in keys <==>
                SubKey(p) in Keys(x.books.journals)
                || (q == p && p < |x.pay.payments| && x.pay.payments[p].amount >= 0
                    && (paid.Some? ==> paid.value == x.pay.payments[p].amount)
                    && x.pay.payments[p].user < |x.pay.accounts| && x.pay.payments[p].plan < |x.pay.plans|))
  {
    SettleReverses(x, q, paid, now, year, p);
    if q < |x.pay.payments| {
      assert RowHolds(x, q);
      SaleIsAccepted(x.books, q, x.pay.payments[q], year);
      if RecordSubscriptionPayment(x.books, q, x.pay.payments[q], year).Some? {
        SaleFacts(x, q, year);
      }
    }
  }

  /** A payment refunded once is never refunded again. */
  lemma NoSecondRefund(x: Till, p: nat, reference: string, now: int)
    requires LedgerInv(x.books.journals) && p in x.pay.refunded
    ensures RefundPayment(x, p, reference, now).after == x
    ensures p < |x.pay.payments| && x.pay.payments[p].status in {Refunded, Completed, NeedsReview}
            && !Blank(reference) ==>
            RefundPayment(x, p, reference, now).reply ==
            if x.pay.payments[p].status == Refunded then AlreadyRefunded else DuplicateRefund
  {
    ReversalIsAccepted(x.books.journals, OfPayment(p), {SubscriptionPayment});
  }

  lemma TillBooksIff(x: Till, t: Tick, p: nat)
    requires BooksOK(x) && CouponInv(x) && !MarketStep(t.step) && p < |x.pay.payments| && p in x.pay.refunded
    ensures var after := TillAfter(x, t);
            && (SubRefundKey(p) in Keys(after.books.journals) <==> SubRefundKey(p) in Keys(x.books.journals))
            && (!t.step.Fulfil? ==> (SubKey(p) in Keys(after.books.journals) <==> SubKey(p) in Keys(x.books.journals)))
  {
    if t.step.Fulfil? {
      SettleBooksIff(x, t.step.payment, t.step.paid, t.now, t.year, p);
    } else if t.step.RefundUser? {
      if t.step.payment == p {
        NoSecondRefund(x, p, t.step.reference, t.now);
      } else if RefundPayment(x, t.step.payment, t.step.reference, t.now).reply == Ok {
        ReversedSale(x, t.step.payment);
      }
    }
  }

  lemma TillPaymentStays(x: Till, t: Tick, p: nat)
    requires !MarketStep(t.step) && p < |x.pay.payments|
    ensures var after := TillAfter(x, t).pay;
            && p < |after.payments| && after.payments[p].amount == x.pay.payments[p].amount
            && (p in x.pay.refunded ==> p in after.refunded)
            && (x.pay.payments[p].subscription.Some? ==> after.payments[p].subscription.Some?)
            && (x.pay.payments[p].status in {Completed, NeedsReview, Refunded} ==>
                  after.payments[p].status in {Completed, NeedsReview, Refunded})
  {
  }

  lemma PaymentStays(s: State, t: Tick, p: nat)
    requires p < |s.pay.payments|
    ensures p < |After(s, t).pay.payments| && After(s, t).pay.payments[p].amount == s.pay.payments[p].amount
    ensures p in s.pay.refunded ==> p in After(s, t).pay.refunded
    ensures s.pay.payments[p].subscription.Some? ==> After(s, t).pay.payments[p].subscription.Some?
    ensures s.pay.payments[p].status in {Completed, NeedsReview, Refunded} ==>
            After(s, t).pay.payments[p].status in {Completed, NeedsReview, Refunded}
  {
    if t.commits && Possible(s, t.step) && !MarketStep(t.step) {
      TillPaymentStays(TillOf(s), t, p);
    }
  }

  /** After a refund the payment's net effect is zero and stays so, until and only until a fulfilment
      grants it for the first time. */
  lemma {:induction false} StepNetsZeroIff(s: State, t: Tick, p: nat)
    requires MoneyInv(s) && CouponInv(TillOf(s)) && p < |s.pay.payments| && p in s.pay.refunded
    ensures p < |After(s, t).pay.payments| && p in After(s, t).pay.refunded
    ensures NetsZero(After(s, t), p) <==> NetsZero(s, p) && !GrantsFirst(s, t, p)
  {
    PaymentStays(s, t, p);
    StepKeepsMoney(s, t);
    NetsZeroIff(s, p);
    NetsZeroIff(After(s, t), p);
    assert RowHolds(TillOf(s), p);
    if t.commits && Possible(s, t.step) {
      if MarketStep(t.step) {
        MarketLeavesTill(Market(s.books, s.shop), t);
        HalfKeptKeys(s.books, After(s, t).books, true);
      } else {
        TillBooksIff(TillOf(s), t, p);
        if t.step.Fulfil? {
          SettleBooksIff(TillOf(s), t.step.payment, t.step.paid, t.now, t.year, p);
        }
      }
    }
  }

  // ---- runs ----

  /** What holds of a payment from its refund on. */
  ghost predicate RefundedSale(s: State, p: nat) {
    && MoneyInv(s) && CouponInv(TillOf(s))
    && p < |s.pay.payments| && p in s.pay.refunded
    && s.pay.payments[p].status in {Completed, NeedsReview, Refunded}
  }

  lemma StepStaysRefunded(s: State, t: Tick, p: nat)
    requires RefundedSale(s, p)
    ensures RefundedSale(After(s, t), p)
  {
    StepKeepsMoney(s, t);
    StepCounts(s, t);
    PaymentStays(s, t, p);
  }

  lemma {:induction false} StaysRefunded(s: State, run: seq<Tick>, p: nat)
    requires RefundedSale(s, p)
    ensures RefundedSale(RunFrom(s, run), p)
    ensures s.pay.payments[p].subscription.Some? ==> RunFrom(s, run).pay.payments[p].subscription.Some?
  {
    EveryRunCounts(s, run);
    if run != [] {
      StaysRefunded(s, run[..|run| - 1], p);
      PaymentStays(RunFrom(s, run[..|run| - 1]), run[|run| - 1], p);
    }
  }

  lemma NeverGrantsFirstStep(s: State, run: seq<Tick>, p: nat)
    requires run != []
    ensures NeverGrantsFirst(s, run, p) <==>
            NeverGrantsFirst(s, run[..|run| - 1], p) && !GrantsFirst(RunFrom(s, run[..|run| - 1]), run[|run| - 1], p)
  {
    var rest := run[..|run| - 1];
    assert forall k | 0 <= k < |rest| :: rest[..k] == run[..k] && rest[k] == run[k];
    if NeverGrantsFirst(s, rest, p) && !GrantsFirst(RunFrom(s, rest), run[|run| - 1], p) {
      forall k | 0 <= k < |run| ensures !GrantsFirst(RunFrom(s, run[..k]), run[k], p) {
        assert k < |rest| ==> !GrantsFirst(RunFrom(s, rest[..k]), rest[k], p);
      }
    }
  }

  lemma {:induction false} NetStaysZeroIff(s: State, run: seq<Tick>, p: nat)
    requires RefundedSale(s, p) && NetsZero(s, p)
    ensures NetsZero(RunFrom(s, run), p) <==> NeverGrantsFirst(s, run, p)
  {
    if run != [] {
      var rest := run[..|run| - 1];
      NetStaysZeroIff(s, rest, p);
      StaysRefunded(s, rest, p);
      NeverGrantsFirstStep(s, run, p);
      StepNetsZeroIff(RunFrom(s, rest), run[|run| - 1], p);
    }
  }

  lemma {:induction false} GrantedIsNotFirst(s: State, run: seq<Tick>, p: nat)
    requires RefundedSale(s, p) && s.pay.payments[p].subscription.Some?
    ensures NeverGrantsFirst(s, run, p)
  {
    forall k | 0 <= k < |run| ensures !GrantsFirst(RunFrom(s, run[..k]), run[k], p) {
      StaysRefunded(s, run[..k], p);
    }
  }

  function RefundTick(p: nat, reference: string, now: int): Tick {
    Tick(RefundUser(p, reference), now, 0, true)
  }

  lemma RefundNetsZero(s: State, p: nat, reference: string, now: int)
    requires MoneyInv(s) && CouponInv(TillOf(s)) && RefundPayment(TillOf(s), p, reference, now).reply == Ok
    ensures var refunded := After(s, RefundTick(p, reference, now));
            && refunded == State(RefundPayment(TillOf(s), p, reference, now).after.books, s.shop,
                                 RefundPayment(TillOf(s), p, reference, now).after.pay)
            && RefundedSale(refunded, p) && NetsZero(refunded, p)
            && refunded.pay.payments[p] == s.pay.payments[p].(status := Refunded)
  {
    var t := RefundTick(p, reference, now);
    StepKeepsMoney(s, t);
    StepCounts(s, t);
    ReversedSale(TillOf(s), p);
    NetsZeroIff(After(s, t), p);
  }

  /** From its refund on a payment moves no money, in any run, if and only if no fulfilment grants it for
      the first time; a refund of a granted payment is for good. */
  lemma {:induction false} SaleRefundIsForeverIff(s: State, p: nat, reference: string, now: int, run: seq<Tick>)
    requires MoneyInv(s) && CouponInv(TillOf(s)) && RefundPayment(TillOf(s), p, reference, now).reply == Ok
    ensures var refunded := After(s, RefundTick(p, reference, now));
            && (NetsZero(RunFrom(refunded, run), p) <==> NeverGrantsFirst(refunded, run, p))
            && (s.pay.payments[p].subscription.Some? ==> NetsZero(RunFrom(refunded, run), p))
  {
    var refunded := After(s, RefundTick(p, reference, now));
    RefundNetsZero(s, p, reference, now);
    NetStaysZeroIff(refunded, run, p);
    if s.pay.payments[p].subscription.Some? {
      GrantedIsNotFirst(refunded, run, p);
    }
  }

  /** After a refund has gone through, whatever happens next, refunding the payment again changes nothing. */
  lemma {:induction false} SaleRefundedOnce(s: State, p: nat, reference: string, now: int, run: seq<Tick>,
                                            again: string, later: int)
    requires MoneyInv(s) && CouponInv(TillOf(s)) && RefundPayment(TillOf(s), p, reference, now).reply == Ok
    requires !Blank(again)
    ensures var late := TillOf(RunFrom(After(s, RefundTick(p, reference, now)), run));
            var answer := RefundPayment(late, p, again, later);
            && answer.after == late && answer.reply in {AlreadyRefunded, DuplicateRefund}
            && (run == [] ==> answer.reply == AlreadyRefunded)
  {
    var refunded := After(s, RefundTick(p, reference, now));
    RefundNetsZero(s, p, reference, now);
    StaysRefunded(refunded, run, p);
    NoSecondRefund(TillOf(RunFrom(refunded, run)), p, again, later);
  }

  /** How refunded money comes to be booked: a payment under review is refunded, and then an answer that
      matches, or that cannot be read, arrives. It is granted and booked, and no refund ends that. */
  lemma {:induction false} RefundedReviewIsBooked(s: State, p: nat, reference: string, paid: Option<int>, now: int,
                                                  run: seq<Tick>)
    requires StateInv(s) && CouponInv(TillOf(s)) && !Blank(reference)
    requires p < |s.pay.payments| && s.pay.payments[p].status == NeedsReview && p !in s.pay.refunded
    requires s.pay.payments[p].amount > 0
    requires (p, paid) in s.pay.reports && (paid.Some? ==> paid.value == s.pay.payments[p].amount)
    ensures RefundPayment(TillOf(s), p, reference, now).reply == Ok
    ensures var refunded := After(s, RefundTick(p, reference, now));
            var granted := After(refunded, Tick(Fulfil(p, paid), now, 0, true));
            && p < |granted.pay.payments| && granted.pay.payments[p].status == Completed && StateInv(granted)
            && !NetsZero(RunFrom(granted, run), p)
  {
    var refunded := After(s, RefundTick(p, reference, now));
    ReviewIsRefunded(s, p, reference, now);
    RefundNetsZero(s, p, reference, now);
    GrantedAfterRefund(refunded, p, paid, now);
    StepKeepsInvIff(refunded, Tick(Fulfil(p, paid), now, 0, true));
    NeverZeroAgain(After(refunded, Tick(Fulfil(p, paid), now, 0, true)), run, p);
  }

  lemma GrantedAfterRefund(s: State, p: nat, paid: Option<int>, now: int)
    requires RefsOK(s.pay) && RefundedSale(s, p) && s.pay.payments[p].status == Refunded
    requires s.pay.payments[p].subscription.None? && s.pay.payments[p].amount > 0
    requires (p, paid) in s.pay.reports && (paid.Some? ==> paid.value == s.pay.payments[p].amount)
    ensures var granted := After(s, Tick(Fulfil(p, paid), now, 0, true));
            && RefundedSale(granted, p) && granted.pay.payments[p].status == Completed
            && !NetsZero(granted, p)
  {
    var t := Tick(Fulfil(p, paid), now, 0, true);
    SaleIsAccepted(s.books, p, s.pay.payments[p], 0);
    assert After(s, t).pay == Settle(TillOf(s), p, paid, now, 0).after.pay;
    StepStaysRefunded(s, t, p);
    StepNetsZeroIff(s, t, p);
  }

  lemma ReviewIsRefunded(s: State, p: nat, reference: string, now: int)
    requires StateInv(s) && CouponInv(TillOf(s)) && !Blank(reference)
    requires p < |s.pay.payments| && s.pay.payments[p].status == NeedsReview && p !in s.pay.refunded
    ensures RefundPayment(TillOf(s), p, reference, now).reply == Ok && s.pay.payments[p].subscription.None?
    ensures StateInv(After(s, RefundTick(p, reference, now)))
  {
    ReversalIsAccepted(s.books.journals, OfPayment(p), {SubscriptionPayment});
    assert RowHolds(TillOf(s), p);
    StepKeepsInvIff(s, RefundTick(p, reference, now));
  }

  lemma {:induction false} NeverZeroAgain(s: State, run: seq<Tick>, p: nat)
    requires RefundedSale(s, p) && !NetsZero(s, p)
    ensures !NetsZero(RunFrom(s, run), p)
  {
    if run != [] {
      StaysRefunded(s, run[..|run| - 1], p);
      NeverZeroAgain(s, run[..|run| - 1], p);
      StepNetsZeroIff(RunFrom(s, run[..|run| - 1]), run[|run| - 1], p);
    }
  }
}
