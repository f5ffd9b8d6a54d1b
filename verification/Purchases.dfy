/** What a granted payment gives its user, and what a refund of it takes. */
module Purchases {
  import opened Sums
  import opened Ledger
  import opened Invoices
  import opened Coupons
  import opened Subscriptions
  import opened Shop
  import opened MarketSteps
  import opened MarketLaws
  import opened TillSteps
  import opened TillLaws
  import opened Engine
  import opened CouponLaws

  // ---- one fulfilment ----

  /** The answer is for what the payment charges, or for no amount that can be read. */
  predicate Agreed(pm: Payment, amount: Option<int>) {
    amount.Some? ==> amount.value == pm.amount
  }

  /** A payment that a matching answer completes now. */
  predicate CompletesNow(pay: Pay, p: nat, amount: Option<int>) {
    && p < |pay.payments| && var pm := pay.payments[p];
    && pm.status != Completed && Agreed(pm, amount) && pm.amount >= 0
    && pm.user < |pay.accounts| && pm.plan < |pay.plans|
  }

  /** What fulfilment answers, and when. Only a payment that completes now, or one whose answer is for
      another amount, changes. */
  lemma SettleAnswers(t: Till, p: nat, amount: Option<int>, now: int, year: nat)
    ensures var o := Settle(t, p, amount, now, year);
            && (o.reply == Ok <==>
                  CompletesNow(t.pay, p, amount) || (p < |t.pay.payments| && t.pay.payments[p].status == Completed))
            && (o.reply == AmountMismatch <==>
                  p < |t.pay.payments| && t.pay.payments[p].status != Completed && !Agreed(t.pay.payments[p], amount))
            && (o.reply == AmountMismatch ==>
                  o.after == t.(pay := t.pay.(payments :=
                    t.pay.payments[p := t.pay.payments[p].(status := NeedsReview)])))
            && (o.reply == LedgerRefused <==>
                  && p < |t.pay.payments| && var pm := t.pay.payments[p];
                  && pm.status != Completed && Agreed(pm, amount) && pm.amount < 0
                  && pm.user < |t.pay.accounts| && pm.plan < |t.pay.plans|)
            && o.reply in {Ok, AmountMismatch, LedgerRefused, NotFound}
            && (!CompletesNow(t.pay, p, amount) && o.reply != AmountMismatch ==> o.after == t)
  {
    if p < |t.pay.payments| {
      var pm := t.pay.payments[p];
      if pm.amount >= 0 {
        SaleIsAccepted(t.books, p, pm, year);
      } else {
        assert SaleLines(pm)[0] in SaleLines(pm) && !ValidLine(SaleLines(pm)[0]);
      }
    }
  }

  /** What the user is covered for when the purchase comes; a lapsed Pro flag covers nothing. */
  function CoverAtPurchase(acc: Subscriber): Cover {
    if acc.isPro then CoverNow(acc) else Nothing
  }

  /** The one row that a purchase of this plan adds: its days go on top of what is covered, a week of grace
      follows a dated end, and the user is Pro until the grace is over. No other account is touched. */
  predicate BoughtBy(before: seq<Subscriber>, after: seq<Subscriber>, u: nat, plan: Plan, origin: Option<nat>,
                     now: int)
  {
    && u < |before| == |after| && (forall v | 0 <= v < |before| && v != u :: after[v] == before[v])
    && |after[u].rows| == |before[u].rows| + 1 && before[u].rows <= after[u].rows
    && var row := Latest(after[u]);
    && CoverOf(row.end) == Extended(CoverAtPurchase(before[u]), now, plan)
    && row.graceEnd == (if row.end.Some? then Some(row.end.value + 7 * 86400) else None)
    && row.refundedAt == None && row.origin == origin
    && after[u].isPro && after[u].proExpiry == row.graceEnd && after[u].marked == before[u].marked
  }

  /** A payment that completes gives its user the plan it was for, and is marked with the new row. */
  lemma {:induction false} PaymentBuysItsPlan(t: Till, p: nat, amount: Option<int>, now: int, year: nat)
    requires CompletesNow(t.pay, p, amount)
    ensures var after, pm := Settle(t, p, amount, now, year).after.pay, t.pay.payments[p];
            && BoughtBy(t.pay.accounts, after.accounts, pm.user, t.pay.plans[pm.plan], Some(p), now)
            && after.payments ==
               t.pay.payments[p := pm.(status := Completed, subscription := Some(|t.pay.accounts[pm.user].rows|),
                                       reserved := pm.coupon.Some?)]
            && after.plans == t.pay.plans && after.refunded == t.pay.refunded && after.checkouts == t.pay.checkouts
            && after.gateway == t.pay.gateway && after.reports == t.pay.reports
  {
    SaleIsAccepted(t.books, p, t.pay.payments[p], year);
  }

  /** Pro lasts exactly as long as the grace of the row just bought. */
  lemma BoughtIsPro(before: seq<Subscriber>, after: seq<Subscriber>, u: nat, plan: Plan, origin: Option<nat>, now: int,
                    at: int)
    requires BoughtBy(before, after, u, plan, origin, now)
    ensures IsProAt(after[u], at) <==> Latest(after[u]).end.None? || at < Latest(after[u]).end.value + 7 * 86400
  {
  }

  // ---- whole runs ----

  /** What a step does to a user's account, read off the tables: a purchase of the plan that the completed
      payment was for, or an event of the account itself. */
  function EventOf(s: State, t: Tick, u: nat): Option<Timed> {
    if !t.commits then None else
      match t.step
      case OnAccount(v, e) => if v == u && (e.Granted? ==> e.origin == None) then Some(Timed(t.now, e)) else None
      case Fulfil(p, paid) =>
        if CompletesNow(s.pay, p, paid) && (p, paid) in s.pay.reports && s.pay.payments[p].user == u
        then Some(Timed(t.now, Granted(s.pay.plans[s.pay.payments[p].plan], Some(p)))) else None
      case _ => None
  }

  function EventsOf(s: State, run: seq<Tick>, u: nat): seq<Timed> {
    if run == [] then [] else
      var rest := run[..|run| - 1];
      var e := EventOf(RunFrom(s, rest), run[|run| - 1], u);
      EventsOf(s, rest, u) + if e.Some? then [e.value] else []
  }

  /** A refund of one of the user's payments, that passes its checks. */
  predicate RefundsUser(s: State, t: Tick, u: nat) {
    && t.commits && t.step.RefundUser? && t.step.payment < |s.pay.payments|
    && s.pay.payments[t.step.payment].user == u
    && s.pay.payments[t.step.payment].status in {Completed, NeedsReview}
    && t.step.payment !in s.pay.refunded && !Blank(t.step.reference)
  }

  ghost predicate NeverRefundsUser(s: State, run: seq<Tick>, u: nat) {
    forall k | 0 <= k < |run| :: !RefundsUser(RunFrom(s, run[..k]), run[k], u)
  }

  lemma FulfilOnAccount(x: Till, p: nat, paid: Option<int>, now: int, year: nat, u: nat)
    requires u < |x.pay.accounts|
    ensures var after := Settle(x, p, paid, now, year).after.pay.accounts;
            && u < |after|
            && after[u] ==
               if CompletesNow(x.pay, p, paid) && x.pay.payments[p].user == u
               then Apply(x.pay.accounts[u], Timed(now, Granted(x.pay.plans[x.pay.payments[p].plan], Some(p))))
               else x.pay.accounts[u]
  {
    SettleAnswers(x, p, paid, now, year);
    if CompletesNow(x.pay, p, paid) {
      SaleIsAccepted(x.books, p, x.pay.payments[p], year);
    }
  }

  lemma StepOnAccount(s: State, t: Tick, u: nat)
    requires u < |s.pay.accounts| && !RefundsUser(s, t, u)
    ensures u < |After(s, t).pay.accounts|
    ensures After(s, t).pay.accounts[u] ==
            match EventOf(s, t, u) case Some(e) => Apply(s.pay.accounts[u], e) case None => s.pay.accounts[u]
  {
    if t.commits && Possible(s, t.step) && t.step.Fulfil? {
      FulfilOnAccount(TillOf(s), t.step.payment, t.step.paid, t.now, t.year, u);
    }
  }

  lemma {:induction false} RunOnAccount(s: State, run: seq<Tick>, u: nat)
    requires u < |s.pay.accounts| && NeverRefundsUser(s, run, u)
    ensures u < |RunFrom(s, run).pay.accounts|
    ensures RunFrom(s, run).pay.accounts[u] == Run(s.pay.accounts[u], EventsOf(s, run, u))
  {
    if run != [] {
      var rest, t := run[..|run| - 1], run[|run| - 1];
      forall k | 0 <= k < |rest| ensures !RefundsUser(RunFrom(s, rest[..k]), rest[k], u) {
        assert rest[..k] == run[..k];
      }
      RunOnAccount(s, rest, u);
      StepOnAccount(RunFrom(s, rest), t, u);
      var events, e := EventsOf(s, rest, u), EventOf(RunFrom(s, rest), t, u);
      if e.Some? {
        assert (events + [e.value])[..|events|] == events;
      } else {
        assert events + [] == events;
      }
    }
  }

  /** However everything interleaves, a user's newest subscription ends where stacking the plans of the
      payments granted to that user, and of the admin's grants, says, as long as no sweep clears paid days
      and none of the user's payments is refunded. */
  lemma {:induction false} NewestEndIsWhatWasBought(s: State, run: seq<Tick>, u: nat)
    requires u < |s.pay.accounts| && s.pay.accounts[u].rows == [] && NeverRefundsUser(s, run, u)
    requires GrantsAndSweeps(EventsOf(s, run, u)) && KeepsDays(s.pay.accounts[u], EventsOf(s, run, u))
    ensures u < |RunFrom(s, run).pay.accounts|
    ensures var acc := RunFrom(s, run).pay.accounts[u];
            acc.rows != [] ==>
              CoverOf(Latest(acc).end) == CoverAfter(InitialCover(s.pay.accounts[u]), EventsOf(s, run, u))
  {
    RunOnAccount(s, run, u);
    RowsFollowPurchases(s.pay.accounts[u], EventsOf(s, run, u));
  }

  // ---- refunds ----

  /** Row j is not refunded and still runs, for good or past `at`. */
  predicate RunsPast(row: Row, now: int, at: int) {
    row.refundedAt.None? && (row.end.None? || (row.end.value > now && row.end.value > at))
  }

  /** A refund marks the payment's own row, and from then on the user is Pro just as long as some other
      unrefunded row runs. No other row and no other user changes. */
  lemma {:induction false} RefundEndsSubscription(t: Till, p: nat, reference: string, now: int)
    requires RefsOK(t.pay) && RefundPayment(t, p, reference, now).reply == Ok
    ensures p < |t.pay.payments| && t.pay.payments[p].user < |t.pay.accounts|
    ensures var pm := t.pay.payments[p];
            var before, after := t.pay.accounts, RefundPayment(t, p, reference, now).after.pay.accounts;
            && |after| == |before| && (forall v | 0 <= v < |before| && v != pm.user :: after[v] == before[v])
            && |after[pm.user].rows| == |before[pm.user].rows|
            && (forall j: nat | j < |before[pm.user].rows| ::
                  var row := before[pm.user].rows[j];
                  after[pm.user].rows[j] == if pm.subscription == Some(j) then row.(refundedAt := Some(now)) else row)
    ensures var pm := t.pay.payments[p];
            var rows := t.pay.accounts[pm.user].rows;
            var acc := RefundPayment(t, p, reference, now).after.pay.accounts[pm.user];
            forall at | at >= now :: IsProAt(acc, at) <==>
              exists j: nat :: j < |rows| && pm.subscription != Some(j) && RunsPast(rows[j], now, at)
  {
    var pm := t.pay.payments[p];
    var acc := t.pay.accounts[pm.user];
    var marked := if pm.subscription.Some? then MarkRefunded(acc, pm.subscription.value, now) else acc;
    assert RefundPayment(t, p, reference, now).after.pay.accounts[pm.user] == Recompute(marked, now);
    forall at | at >= now
      ensures IsProAt(Recompute(marked, now), at) <==>
              exists j: nat :: j < |acc.rows| && pm.subscription != Some(j) && RunsPast(acc.rows[j], now, at)
    {
      RecomputedPro(marked, acc.rows, pm.subscription, now, at);
    }
  }

  lemma RecomputedPro(marked: Subscriber, rows: seq<Row>, ended: Option<nat>, now: int, at: int)
    requires |marked.rows| == |rows| && at >= now
    requires forall j: nat | j < |rows| ::
               marked.rows[j] == if ended == Some(j) then rows[j].(refundedAt := Some(now)) else rows[j]
    ensures IsProAt(Recompute(marked, now), at) <==>
            exists j: nat :: j < |rows| && ended != Some(j) && RunsPast(rows[j], now, at)
  {
    RecomputeMeansRunning(marked, now, at);
    if IsProAt(Recompute(marked, now), at) {
      var r :| r in marked.rows && Running(r, now) && (r.end.None? || r.end.value > at);
      var j :| 0 <= j < |marked.rows| && marked.rows[j] == r;
      assert ended != Some(j) && RunsPast(rows[j], now, at);
    }
    if j: nat :| j < |rows| && ended != Some(j) && RunsPast(rows[j], now, at) {
      assert marked.rows[j] in marked.rows && Running(marked.rows[j], now);
    }
  }

  /** The row is marked refunded. */
  predicate RowEnded(pay: Pay, u: nat, k: nat) {
    u < |pay.accounts| && k < |pay.accounts[u].rows| && pay.accounts[u].rows[k].refundedAt.Some?
  }

  lemma StepKeepsEnded(s: State, t: Tick, u: nat, k: nat)
    requires RowEnded(s.pay, u, k)
    ensures RowEnded(After(s, t).pay, u, k)
  {
    if t.commits && Possible(s, t.step) && !MarketStep(t.step) {
      TillKeepsEnded(TillOf(s), t, u, k);
    }
  }

  lemma TillKeepsEnded(x: Till, t: Tick, u: nat, k: nat)
    requires RowEnded(x.pay, u, k) && !MarketStep(t.step)
    ensures RowEnded(TillAfter(x, t).pay, u, k)
  {
    if t.step.Fulfil? {
      FulfilOnAccount(x, t.step.payment, t.step.paid, t.now, t.year, u);
    } else if t.step.RefundUser? {
      RefundKeepsEnded(x, t.step.payment, t.step.reference, t.now, u, k);
    }
  }

  lemma RefundKeepsEnded(x: Till, p: nat, reference: string, now: int, u: nat, k: nat)
    requires RowEnded(x.pay, u, k)
    ensures RowEnded(RefundPayment(x, p, reference, now).after.pay, u, k)
  {
  }

  /** A refunded row stays refunded, whatever happens next: it never runs again, and its status never
      reads as anything else. */
  lemma {:induction false} EndedForever(s: State, run: seq<Tick>, u: nat, k: nat, at: int)
    requires RowEnded(s.pay, u, k)
    ensures var pay := RunFrom(s, run).pay;
            && RowEnded(pay, u, k) && !Running(pay.accounts[u].rows[k], at)
            && ComputeStatus(pay.accounts[u].rows[k], at) == RowRefunded
  {
    if run != [] {
      EndedForever(s, run[..|run| - 1], u, k, at);
      StepKeepsEnded(RunFrom(s, run[..|run| - 1]), run[|run| - 1], u, k);
    }
  }
}
