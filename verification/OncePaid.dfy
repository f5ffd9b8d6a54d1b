/** A payment takes effect exactly once, however execute, cancel, reconcile and answers interleave. */
module OncePaid {
  import opened Sums
  import opened Ledger
  import opened Invoices
  import opened Subscriptions
  import opened Shop
  import opened MarketSteps
  import opened MarketLaws
  import opened TillSteps
  import opened TillLaws
  import opened Engine
  import opened CouponLaws

  /** Row k of user u arose from payment p. */
  predicate ArisesFrom(pay: Pay, u: nat, k: nat, p: nat) {
    u < |pay.accounts| && k < |pay.accounts[u].rows| && pay.accounts[u].rows[k].origin == Some(p)
  }

  /** What a payment has brought about: its subscription, its revenue journal and its invoice. */
  ghost predicate TookEffect(s: State, p: nat) {
    && (exists u: nat, k: nat :: ArisesFrom(s.pay, u, k, p))
    && SubKey(p) in Keys(s.books.journals)
    && HasInvoice(s.books.invoices, OfPayment(p))
  }

  ghost predicate NoEffect(s: State, p: nat) {
    && (forall u: nat, k: nat :: !ArisesFrom(s.pay, u, k, p))
    && SubKey(p) !in Keys(s.books.journals)
    && !HasInvoice(s.books.invoices, OfPayment(p))
  }

  /** At most one revenue journal and one invoice. */
  ghost predicate BookedOnce(s: State, p: nat) {
    && (forall x, y | 0 <= x < y < |s.books.journals| ::
          s.books.journals[x].key != SubKey(p) || s.books.journals[y].key != SubKey(p))
    && (forall x, y | 0 <= x < y < |s.books.invoices| ::
          s.books.invoices[x].source != OfPayment(p) || s.books.invoices[y].source != OfPayment(p))
  }

  /** And at most one subscription. */
  ghost predicate AtMostOnce(s: State, p: nat) {
    && (forall u: nat, k: nat, v: nat, l: nat | ArisesFrom(s.pay, u, k, p) && ArisesFrom(s.pay, v, l, p) ::
          u == v && k == l)
    && BookedOnce(s, p)
  }

  lemma OneSubscription(s: State, p: nat)
    requires StateInv(s)
    ensures forall u: nat, k: nat, v: nat, l: nat | ArisesFrom(s.pay, u, k, p) && ArisesFrom(s.pay, v, l, p) ::
              u == v && k == l
    ensures forall u: nat, k: nat | ArisesFrom(s.pay, u, k, p) ::
              p < |s.pay.payments| && s.pay.payments[p].subscription.Some?
  {
  }

  /** In every reachable state a payment takes effect at most once; it has taken effect if it is
      completed, it has had none unless it is completed or refunded, and a completed one was really
      paid: bKash took the money and reported it, with the charged amount or with none readable. */
  lemma ExactlyOnce(s: State, p: nat)
    requires StateInv(s) && p < |s.pay.payments|
    ensures AtMostOnce(s, p)
    ensures s.pay.payments[p].status == Completed ==> TookEffect(s, p)
    ensures s.pay.payments[p].status !in {Completed, Refunded} ==> NoEffect(s, p)
    ensures TookEffect(s, p) || NoEffect(s, p)
    ensures TookEffect(s, p) ==> s.pay.gateway[p].MoneyTaken? && Confirmed(s.pay.reports, p, s.pay.payments[p].amount)
  {
    var keys, pm := Keys(s.books.journals), s.pay.payments[p];
    assert PaymentOK(pm, SubKey(p) in keys, SubRefundKey(p) in keys, HasInvoice(s.books.invoices, OfPayment(p)),
                     p in s.pay.refunded);
    OneSubscription(s, p);
    JournalsOnce(s, p);
    if pm.subscription.Some? {
      assert OwnerOK(pm, p, s.pay.accounts);
      assert ArisesFrom(s.pay, pm.user, pm.subscription.value, p);
      WasPaid(s.pay, p);
    }
  }

  lemma JournalsOnce(s: State, p: nat)
    requires LedgerInv(s.books.journals) && InvoiceInv(s.books.invoices, s.books.counters)
    ensures BookedOnce(s, p)
  {
  }

  lemma WasPaid(pay: Pay, p: nat)
    requires EvidenceOK(pay) && p < |pay.payments| && pay.payments[p].subscription.Some?
    ensures pay.gateway[p].MoneyTaken? && Confirmed(pay.reports, p, pay.payments[p].amount)
  {
  }

  ghost predicate PaysOnce(s: State) {
    forall p: nat | p < |s.pay.payments| ::
      && AtMostOnce(s, p)
      && (s.pay.payments[p].status == Completed ==> TookEffect(s, p))
      && (s.pay.payments[p].status !in {Completed, Refunded} ==> NoEffect(s, p))
  }

  /** Exactly-once itself survives a step unless, and only unless, the step fulfils a payment that was
      refunded after being granted. */
  lemma {:induction false} StepPaysOnceIff(s: State, t: Tick)
    requires StateInv(s)
    ensures PaysOnce(After(s, t)) <==> !Regrants(s, t)
  {
    StepKeepsInvIff(s, t);
    if Regrants(s, t) {
      RegrantBreaksOnce(s, t);
    } else {
      forall p: nat | p < |After(s, t).pay.payments|
        ensures AtMostOnce(After(s, t), p)
        ensures After(s, t).pay.payments[p].status == Completed ==> TookEffect(After(s, t), p)
        ensures After(s, t).pay.payments[p].status !in {Completed, Refunded} ==> NoEffect(After(s, t), p)
      {
        ExactlyOnce(After(s, t), p);
      }
    }
  }

  /** A matching answer makes a second subscription; any other puts a granted payment under review. */
  lemma RegrantBreaksOnce(s: State, t: Tick)
    requires StateInv(s) && Regrants(s, t)
    ensures !PaysOnce(After(s, t))
  {
    var x, p, paid := Till(s.books, s.pay), t.step.payment, t.step.paid;
    assert After(s, t).pay == Settle(x, p, paid, t.now, t.year).after.pay;
    if paid.Some? && paid.value != s.pay.payments[p].amount {
      FlaggedStillArises(x, p, paid, t.now, t.year);
      FlaggedBreaks(After(s, t), p, s.pay.payments[p].user, s.pay.payments[p].subscription.value);
    } else {
      RegrantHappens(x, p, paid, t.now, t.year);
      var u := s.pay.payments[p].user;
      TwiceBreaks(After(s, t), p, u, s.pay.payments[p].subscription.value, |s.pay.accounts[u].rows|);
    }
  }

  lemma FlaggedBreaks(s: State, p: nat, u: nat, k: nat)
    requires p < |s.pay.payments| && s.pay.payments[p].status == NeedsReview && ArisesFrom(s.pay, u, k, p)
    ensures !PaysOnce(s)
  {
    assert !NoEffect(s, p);
  }

  lemma TwiceBreaks(s: State, p: nat, u: nat, k: nat, l: nat)
    requires p < |s.pay.payments| && k != l && ArisesFrom(s.pay, u, k, p) && ArisesFrom(s.pay, u, l, p)
    ensures !PaysOnce(s)
  {
    assert !AtMostOnce(s, p);
  }

  lemma FlaggedStillArises(x: Till, p: nat, paid: Option<int>, now: int, year: nat)
    requires TillInv(x) && HitsRefunded(x.pay, p) && paid.Some? && paid.value != x.pay.payments[p].amount
    ensures var after, pm := Settle(x, p, paid, now, year).after.pay, x.pay.payments[p];
            && p < |after.payments| && after.payments[p].status == NeedsReview
            && ArisesFrom(after, pm.user, pm.subscription.value, p)
  {
    assert OwnerOK(x.pay.payments[p], p, x.pay.accounts);
  }

  /** Re-grants or not, bKash's reports are of money it took, whatever was granted was reported, and
      payments and checkouts name users, plans and coupons that exist. */
  lemma StepKeepsEvidence(s: State, t: Tick)
    requires EvidenceOK(s.pay) && RefsOK(s.pay)
    ensures EvidenceOK(After(s, t).pay) && RefsOK(After(s, t).pay)
  {
    if t.commits && Possible(s, t.step) && !MarketStep(t.step) {
      TillKeepsEvidence(TillOf(s), t);
    }
  }

  lemma TillKeepsEvidence(x: Till, t: Tick)
    requires EvidenceOK(x.pay) && RefsOK(x.pay) && !MarketStep(t.step)
    requires t.step.Fulfil? ==> (t.step.payment, t.step.paid) in x.pay.reports
    ensures EvidenceOK(TillAfter(x, t).pay) && RefsOK(TillAfter(x, t).pay)
  {
    if t.step.Fulfil? {
      SettleKeepsEvidence(x, t.step.payment, t.step.paid, t.now, t.year);
    } else if t.step.RefundUser? {
      if t.step.payment < |x.pay.payments| {
        RefundedRest(x, t.step.payment, t.now);
      }
    } else {
      QuietKeepsEvidence(x, t);
      QuietKeepsRefs(x, t);
    }
  }

  lemma QuietKeepsEvidence(x: Till, t: Tick)
    requires EvidenceOK(x.pay) && !MarketStep(t.step) && !t.step.Fulfil? && !t.step.RefundUser?
    ensures EvidenceOK(TillAfter(x, t).pay)
  {
  }

  lemma QuietKeepsRefs(x: Till, t: Tick)
    requires RefsOK(x.pay) && !MarketStep(t.step) && !t.step.Fulfil? && !t.step.RefundUser?
    ensures RefsOK(TillAfter(x, t).pay)
  {
  }

  lemma SettleKeepsEvidence(x: Till, p: nat, paid: Option<int>, now: int, year: nat)
    requires EvidenceOK(x.pay) && RefsOK(x.pay) && (p, paid) in x.pay.reports
    ensures EvidenceOK(Settle(x, p, paid, now, year).after.pay) && RefsOK(Settle(x, p, paid, now, year).after.pay)
  {
  }

  lemma {:induction false} EveryRunKeepsEvidence(s: State, run: seq<Tick>)
    requires Fresh(s)
    ensures EvidenceOK(RunFrom(s, run).pay) && RefsOK(RunFrom(s, run).pay)
  {
    if run != [] {
      EveryRunKeepsEvidence(s, run[..|run| - 1]);
      StepKeepsEvidence(RunFrom(s, run[..|run| - 1]), run[|run| - 1]);
    }
  }

  /** After every run, re-grants included: one revenue journal and one invoice at most, revenue for each
      completed payment, and no revenue that bKash did not report. */
  lemma {:induction false} EveryRunBooksOnce(s: State, run: seq<Tick>, p: nat)
    requires Fresh(s) && p < |RunFrom(s, run).pay.payments|
    ensures var after := RunFrom(s, run);
            && BookedOnce(after, p)
            && (after.pay.payments[p].status == Completed ==> SubKey(p) in Keys(after.books.journals))
            && (SubKey(p) in Keys(after.books.journals) ==>
                  p < |after.pay.gateway| && after.pay.gateway[p].MoneyTaken?
                  && Confirmed(after.pay.reports, p, after.pay.payments[p].amount))
  {
    FreshCounts(s);
    EveryRunCounts(s, run);
    EveryRunKeepsEvidence(s, run);
    JournalsOnce(RunFrom(s, run), p);
    assert RowHolds(TillOf(RunFrom(s, run)), p);
    if SubKey(p) in Keys(RunFrom(s, run).books.journals) {
      WasPaid(RunFrom(s, run).pay, p);
    }
  }

  /** The run version: every interleaving, from a fresh start. One subscription, and no effect of a
      payment that is neither completed nor refunded, need that none is granted again. */
  lemma {:induction false} EveryRunPaysOnce(s: State, run: seq<Tick>, p: nat)
    requires Fresh(s) && NeverRegrants(s, run) && p < |RunFrom(s, run).pay.payments|
    ensures var after := RunFrom(s, run);
            && AtMostOnce(after, p)
            && (after.pay.payments[p].status == Completed ==> TookEffect(after, p))
            && (after.pay.payments[p].status !in {Completed, Refunded} ==> NoEffect(after, p))
  {
    FreshIsFine(s);
    EveryRunKeepsInv(s, run);
    ExactlyOnce(RunFrom(s, run), p);
  }

  /** Only a refund ends a completed payment: no cancel, failure, reconcile or repeated answer undoes it. */
  lemma CompletedStays(s: State, t: Tick, p: nat)
    requires p < |s.pay.payments| && s.pay.payments[p].status == Completed
    ensures p < |After(s, t).pay.payments|
    ensures var after := After(s, t).pay.payments[p];
            || after == s.pay.payments[p]
            || (t.step.RefundUser? && t.step.payment == p && after == s.pay.payments[p].(status := Refunded))
  {
  }

  lemma {:induction false} CompletedUntilRefunded(s: State, run: seq<Tick>, p: nat)
    requires p < |s.pay.payments| && s.pay.payments[p].status == Completed
    requires forall t | t in run :: !(t.step.RefundUser? && t.step.payment == p)
    ensures p < |RunFrom(s, run).pay.payments| && RunFrom(s, run).pay.payments[p] == s.pay.payments[p]
  {
    if run != [] {
      var rest := run[..|run| - 1];
      assert forall t | t in rest :: t in run;
      assert run[|run| - 1] in run;
      CompletedUntilRefunded(s, rest, p);
      CompletedStays(RunFrom(s, rest), run[|run| - 1], p);
    }
  }

  /** What fulfilling a refunded payment does: a second subscription from the same payment, the
      payment completed again, and neither revenue nor an invoice for it. */
  predicate RegrantedBy(refunded: Till, again: TillOutcome, p: nat) {
    p < |refunded.pay.payments| && p < |again.after.pay.payments| &&
    var u := refunded.pay.payments[p].user;
    && again.reply == Ok
    && again.after.books == refunded.books
    && again.after.pay.payments[p].status == Completed
    && u < |refunded.pay.accounts| && refunded.pay.payments[p].subscription.Some?
    && refunded.pay.payments[p].subscription.value < |refunded.pay.accounts[u].rows|
    && ArisesFrom(again.after.pay, u, refunded.pay.payments[p].subscription.value, p)
    && ArisesFrom(again.after.pay, u, |refunded.pay.accounts[u].rows|, p)
  }

  lemma RegrantHappens(x: Till, p: nat, paid: Option<int>, now: int, year: nat)
    requires TillInv(x) && HitsRefunded(x.pay, p)
    requires paid.Some? ==> paid.value == x.pay.payments[p].amount
    ensures RegrantedBy(x, Settle(x, p, paid, now, year), p)
  {
    var keys, pm := Keys(x.books.journals), x.pay.payments[p];
    assert PaymentOK(pm, SubKey(p) in keys, SubRefundKey(p) in keys, HasInvoice(x.books.invoices, OfPayment(p)),
                     p in x.pay.refunded);
    assert OwnerOK(pm, p, x.pay.accounts);
    TransferFacts(GatewayBkash, RevenueSubs, pm.amount, RevenueSubs);
    var again := Settle(x, p, paid, now, year).after;
    assert again.pay.accounts[pm.user].rows[pm.subscription.value] ==
      x.pay.accounts[pm.user].rows[pm.subscription.value];
  }

  /** Why such fulfilments must be excluded, and that they do happen: from every state with a completed
      payment, a refund followed by a late repeat of the answer that had confirmed it is one. */
  lemma LateAnswerRegrants(x: Till, p: nat, reference: string, now: int, year: nat)
    requires TillInv(x) && p < |x.pay.payments| && x.pay.payments[p].status == Completed
    requires p !in x.pay.refunded && !Blank(reference)
    ensures var refunded := RefundPayment(x, p, reference, now);
            && refunded.reply == Ok
            && exists paid: Option<int> :: (p, paid) in refunded.after.pay.reports
                                           && RegrantedBy(refunded.after, Settle(refunded.after, p, paid, now, year), p)
  {
    ReversalIsAccepted(x.books.journals, OfPayment(p), {SubscriptionPayment});
    RefundKeepsTill(x, p, reference, now);
    var keys, pm := Keys(x.books.journals), x.pay.payments[p];
    assert PaymentOK(pm, SubKey(p) in keys, SubRefundKey(p) in keys, HasInvoice(x.books.invoices, OfPayment(p)),
                     p in x.pay.refunded);
    assert Confirmed(x.pay.reports, p, pm.amount);
    var paid := if (p, None) in x.pay.reports then None else Some(pm.amount);
    RegrantHappens(RefundPayment(x, p, reference, now).after, p, paid, now, year);
  }

  // ---- orders ----

  /** Of all the payment rows opened for an order at most one ever completes. */
  lemma {:induction false} OrderPaidOnce(s: State, run: seq<Tick>, x: nat, y: nat)
    requires Fresh(s)
    requires x < y < |RunFrom(s, run).shop.orderTxs|
    requires RunFrom(s, run).shop.orderTxs[x].order == RunFrom(s, run).shop.orderTxs[y].order
    ensures !(RunFrom(s, run).shop.orderTxs[x].status == Completed
              && RunFrom(s, run).shop.orderTxs[y].status == Completed)
  {
    FreshIsFine(s);
    EveryRunKeepsMoney(s, run);
  }

  /** Invoices after every run: numbers without gap or repeat in each year, one per source, each adding up. */
  lemma {:induction false} InvoicesAfterEveryRun(s: State, run: seq<Tick>)
    requires Fresh(s)
    ensures var b := RunFrom(s, run).books;
            && InvoiceInv(b.invoices, b.counters)
            && forall i, k | 0 <= i < k < |b.invoices| :: b.invoices[i].number != b.invoices[k].number
  {
    FreshIsFine(s);
    EveryRunKeepsMoney(s, run);
    var b := RunFrom(s, run).books;
    forall i, k | 0 <= i < k < |b.invoices| ensures b.invoices[i].number != b.invoices[k].number {
      NumbersAreUnique(b, i, k);
    }
  }
}
