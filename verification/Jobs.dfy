/** What the background jobs pick, what they do to it, and what they report. */
module Jobs {
  import opened Sums
  import opened Ledger
  import opened Commission
  import opened Release
  import opened Invoices
  import opened Subscriptions
  import opened Shop
  import opened MarketSteps
  import opened MarketLaws
  import opened TillSteps
  import opened TillLaws
  import opened Marketplace
  import opened Payments

  // ---- expiring unpaid orders ----

  /** A bKash order that waits for payment longer than `maxAge`, and of whose payments none is completed or
      under review and none was opened in the last hour and is still open. */
  predicate Deserted(shop: Shop, i: nat, now: int, maxAge: int) {
    && i < |shop.orders| && var o := shop.orders[i];
    && o.status == PendingPayment && o.payBy == Bkash && o.createdAt + maxAge < now
    && forall x | 0 <= x < |shop.orderTxs| && shop.orderTxs[x].order == i ::
         var tx := shop.orderTxs[x];
         && tx.status != Completed && tx.status != NeedsReview
         && (tx.status == Initiated ==> tx.createdAt + 3600 <= now)
  }

  lemma UnpaidIff(shop: Shop, i: nat, now: int, maxAge: int)
    ensures Unpaid(shop, i, now, maxAge) <==> Deserted(shop, i, now, maxAge)
  {
    if Deserted(shop, i, now, maxAge) {
      forall tx | tx in shop.orderTxs && tx.order == i
        ensures tx.status !in {Completed, NeedsReview} && !(tx.status == Initiated && tx.createdAt > now - HOUR)
      {
        var x :| 0 <= x < |shop.orderTxs| && shop.orderTxs[x] == tx;
      }
    }
  }

  /** An order once deserted stays so while nothing happens to it. */
  lemma StaysDeserted(shop: Shop, i: nat, now: int, later: int, maxAge: int)
    requires Deserted(shop, i, now, maxAge) && now <= later
    ensures Deserted(shop, i, later, maxAge)
  {
  }

  function UnitsOf(shop: Shop, p: nat): nat -> int {
    (i: nat) => if i < |shop.orders| then Demand(shop.orders[i].items, p) else 0
  }

  /** What cancelling one order after another gives back. */
  lemma {:induction false} CancelEachRestocks(m: Market, ids: seq<nat>, year: nat, p: nat)
    requires AllDistinct(ids) && p < |m.shop.products|
    requires forall k | 0 <= k < |ids| :: ids[k] < |m.shop.orders| && m.shop.orders[ids[k]].status == PendingPayment
    ensures var after := CancelEach(m, ids, year).shop.products;
            && |after| == |m.shop.products|
            && after[p] == m.shop.products[p].(stock := m.shop.products[p].stock + SumBy(ids, UnitsOf(m.shop, p)))
  {
    if ids != [] {
      var rest, last := ids[..|ids| - 1], ids[|ids| - 1];
      assert forall k | 0 <= k < |rest| :: rest[k] == ids[k];
      SplitLast(ids);
      CancelEachRestocks(m, rest, year, p);
      CancelEachFacts(m, rest, year);
    }
  }

  lemma DesertedArePicked(m: Market, now: int, maxAge: int, batch: nat)
    ensures var picked := Pick(|m.shop.orders|, batch, UnpaidAt(m.shop, now, maxAge));
            && AllDistinct(picked) && |picked| <= batch
            && (forall k | 0 <= k < |picked| :: Deserted(m.shop, picked[k], now, maxAge))
            && (|picked| < batch ==> forall i: nat | Deserted(m.shop, i, now, maxAge) :: i in picked)
  {
    var wanted := UnpaidAt(m.shop, now, maxAge);
    var picked := Pick(|m.shop.orders|, batch, wanted);
    PickFacts(|m.shop.orders|, batch, wanted);
    forall i: nat ensures wanted(i) <==> Deserted(m.shop, i, now, maxAge) {
      UnpaidIff(m.shop, i, now, maxAge);
    }
    forall k | 0 <= k < |picked| ensures Deserted(m.shop, picked[k], now, maxAge) {
      assert picked[k] in picked && wanted(picked[k]);
    }
  }

  /** The expiry job cancels deserted orders and no others; all of them when they are fewer than its batch.
      Their units are back on the shelf and no money moves. */
  lemma {:induction false} ExpiryCancelsDeserted(m: Market, now: int, maxAge: int, batch: nat, year: nat)
    ensures var picked := Pick(|m.shop.orders|, batch, UnpaidAt(m.shop, now, maxAge));
            var after := CancelEach(m, picked, year);
            && after.books == m.books && |after.shop.orders| == |m.shop.orders|
            && (forall i: nat | i < |m.shop.orders| ::
                  if i in picked then Deserted(m.shop, i, now, maxAge) && after.shop.orders[i].status == Cancelled
                  else after.shop.orders[i] == m.shop.orders[i])
            && (|picked| < batch ==> forall i: nat | Deserted(m.shop, i, now, maxAge) :: i in picked)
  {
    var picked := Pick(|m.shop.orders|, batch, UnpaidAt(m.shop, now, maxAge));
    DesertedArePicked(m, now, maxAge, batch);
    forall i | i in picked ensures i < |m.shop.orders| && m.shop.orders[i].status == PendingPayment {
      var k :| 0 <= k < |picked| && picked[k] == i;
    }
    CancelEachFacts(m, picked, year);
  }

  lemma {:induction false} ExpiryRestocks(m: Market, now: int, maxAge: int, batch: nat, year: nat, p: nat)
    requires p < |m.shop.products|
    ensures var picked := Pick(|m.shop.orders|, batch, UnpaidAt(m.shop, now, maxAge));
            var after := CancelEach(m, picked, year).shop.products;
            && |after| == |m.shop.products|
            && after[p].stock == m.shop.products[p].stock + SumBy<nat>(picked, UnitsOf(m.shop, p))
  {
    DesertedArePicked(m, now, maxAge, batch);
    CancelEachRestocks(m, Pick(|m.shop.orders|, batch, UnpaidAt(m.shop, now, maxAge)), year, p);
  }

  // ---- booking delivered orders ----

  /** The earnings sweep picks delivered orders whose earnings are not booked, the oldest first. Below its
      limit it leaves no delivered order unbooked that the ledger takes, and it books nothing else. */
  lemma {:induction false} SweepBooksDelivered(m: Market, limit: nat, year: nat)
    requires MarketInv(m)
    ensures var picked := Pick(|m.shop.orders|, limit, UnreleasedIn(m));
            var keys, keys' := Keys(m.books.journals), Keys(DeliverEach(m, picked, year).books.journals);
            && |picked| <= limit && DeliverEach(m, picked, year).shop == m.shop
            && (forall i | i in picked ::
                  i < |m.shop.orders| && m.shop.orders[i].status == Delivered && ReleaseKey(i) !in keys)
            && (forall i: nat | i < |m.shop.orders| :: ReleaseKey(i) in keys' ==>
                  ReleaseKey(i) in keys || (m.shop.orders[i].status == Delivered && Bookable(m.shop, m.shop.orders[i])))
            && (|picked| < limit ==>
                  forall i: nat | i < |m.shop.orders| && m.shop.orders[i].status == Delivered ::
                    Bookable(m.shop, m.shop.orders[i]) ==> ReleaseKey(i) in keys')
  {
    PickFacts(|m.shop.orders|, limit, UnreleasedIn(m));
    DeliverEachFacts(m, Pick(|m.shop.orders|, limit, UnreleasedIn(m)), year);
  }

  // ---- reconciling order payments ----

  /** A payment row that has been open longer than `age`. */
  predicate OpenFor(tx: OrderTx, now: int, age: int) {
    tx.status == Initiated && tx.createdAt + age < now
  }

  /** What the answer makes of an open row: nothing without one; abandoned when it was not paid in
      `cancelAfter`; flagged when bKash took another amount; else completed, or flagged if its order does not
      wait any more, or open as it was if its amount is negative. */
  predicate AsAnswered(before: OrderTx, after: OrderTx, now: int, cancelAfter: int, answer: Answer) {
    && after == before.(status := after.status)
    && match answer
       case Unreachable => after.status == Initiated
       case NotPaid => after.status == if before.createdAt + cancelAfter < now then Abandoned else Initiated
       case PaidInFull(amount) =>
         && after.status in {Completed, NeedsReview, Initiated}
         && (amount.Some? && amount.value != before.amount ==> after.status == NeedsReview)
         && (after.status == Initiated ==> before.amount < 0)
  }

  lemma OpenRowsArePicked(txs: seq<OrderTx>, now: int, minAge: int, batch: nat)
    ensures var picked := Pick(|txs|, batch, StaleIn(txs, now - minAge));
            && AllDistinct(picked)
            && (forall k | 0 <= k < |picked| :: picked[k] < |txs| && OpenFor(txs[picked[k]], now, minAge))
            && (|picked| < batch ==> forall x: nat | x < |txs| && OpenFor(txs[x], now, minAge) :: x in picked)
  {
    var wanted := StaleIn(txs, now - minAge);
    var picked := Pick(|txs|, batch, wanted);
    PickFacts(|txs|, batch, wanted);
    forall k | 0 <= k < |picked| ensures picked[k] < |txs| && OpenFor(txs[picked[k]], now, minAge) {
      assert picked[k] in picked && wanted(picked[k]);
    }
    forall x: nat | x < |txs| && OpenFor(txs[x], now, minAge) ensures wanted(x) {
    }
  }

  /** The picked rows were open for longer than `minAge` and are as bKash answered; the others are as before. */
  ghost predicate RowsAnswered(before: seq<OrderTx>, after: seq<OrderTx>, picked: seq<nat>, now: int, minAge: int,
                               cancelAfter: int, answers: nat -> Answer)
  {
    && |after| == |before|
    && (forall x: nat | x < |before| && x in picked ::
          OpenFor(before[x], now, minAge) && AsAnswered(before[x], after[x], now, cancelAfter, answers(x)))
    && (forall x: nat | x < |before| && x !in picked :: after[x] == before[x])
  }

  /** A pass leaves every row alone that is not open for longer than `minAge`, and ends the others as bKash
      answers for them; all of those when they are fewer than its batch. */
  lemma {:induction false} PassTouchesOldRows(m: Market, now: int, minAge: int, cancelAfter: int, batch: nat,
                                              answers: nat -> Answer, year: nat)
    requires MarketInv(m)
    ensures var txs := m.shop.orderTxs;
            var picked := Pick(|txs|, batch, StaleIn(txs, now - minAge));
            var after := ReconcileEach(m, picked, now - cancelAfter, answers, year).market.shop.orderTxs;
            && RowsAnswered(txs, after, picked, now, minAge, cancelAfter, answers)
            && (|picked| < batch ==> forall x: nat | x < |txs| && OpenFor(txs[x], now, minAge) :: x in picked)
  {
    var picked := Pick(|m.shop.orderTxs|, batch, StaleIn(m.shop.orderTxs, now - minAge));
    OpenRowsArePicked(m.shop.orderTxs, now, minAge, batch);
    PickedAreAnswered(m, picked, now, minAge, cancelAfter, answers, year);
  }

  lemma PickedAreAnswered(m: Market, picked: seq<nat>, now: int, minAge: int, cancelAfter: int, answers: nat -> Answer,
                          year: nat)
    requires MarketInv(m) && AllDistinct(picked)
    requires forall k | 0 <= k < |picked| ::
               picked[k] < |m.shop.orderTxs| && OpenFor(m.shop.orderTxs[picked[k]], now, minAge)
    ensures var after := ReconcileEach(m, picked, now - cancelAfter, answers, year).market.shop.orderTxs;
            RowsAnswered(m.shop.orderTxs, after, picked, now, minAge, cancelAfter, answers)
  {
    ReconcileDecides(m, picked, now - cancelAfter, answers, year);
    PickedAsAnswered(m.shop, picked, now, minAge, cancelAfter, answers,
                     ReconcileEach(m, picked, now - cancelAfter, answers, year).market.shop);
  }

  lemma PickedAsAnswered(shop: Shop, picked: seq<nat>, now: int, minAge: int, cancelAfter: int, answers: nat -> Answer,
                         after: Shop)
    requires forall k | 0 <= k < |picked| ::
               picked[k] < |shop.orderTxs| && OpenFor(shop.orderTxs[picked[k]], now, minAge)
    requires PassDecided(shop, picked, now - cancelAfter, answers, after)
    ensures RowsAnswered(shop.orderTxs, after.orderTxs, picked, now, minAge, cancelAfter, answers)
  {
    forall x: nat | x < |shop.orderTxs| && x in picked
      ensures OpenFor(shop.orderTxs[x], now, minAge)
      ensures AsAnswered(shop.orderTxs[x], after.orderTxs[x], now, cancelAfter, answers(x))
    {
      var k :| 0 <= k < |picked| && picked[k] == x;
      RowAsAnswered(shop, picked, k, now, cancelAfter, answers, after.orderTxs[x]);
    }
  }

  lemma RowAsAnswered(shop: Shop, picked: seq<nat>, k: nat, now: int, cancelAfter: int, answers: nat -> Answer,
                      after: OrderTx)
    requires k < |picked| && picked[k] < |shop.orderTxs| && shop.orderTxs[picked[k]].status == Initiated
    requires DecidedRow(shop, picked, k, now - cancelAfter, answers, after)
    ensures AsAnswered(shop.orderTxs[picked[k]], after, now, cancelAfter, answers(picked[k]))
  {
  }

  // ---- the job's report ----

  /** One for each picked row that ended with this status. */
  function RowsEnded(txs: seq<OrderTx>, status: TxStatus): nat -> int {
    (x: nat) => if x < |txs| && txs[x].status == status then 1 else 0
  }

  /** One for each picked row that bKash gave no answer for, or confirmed in vain. */
  function RowsFailed(txs: seq<OrderTx>, answers: nat -> Answer): nat -> int {
    (x: nat) =>
      if answers(x) == Unreachable || (answers(x).PaidInFull? && !(x < |txs| && txs[x].status == Completed))
      then 1 else 0
  }

  lemma TallyRow(m: Market, x: nat, oldest: int, answer: Answer, year: nat, s: Stats)
    requires MarketInv(m) && x < |m.shop.orderTxs| && m.shop.orderTxs[x].status == Initiated
    ensures var overdue := m.shop.orderTxs[x].createdAt < oldest;
            var o := Reconciled(m, x, overdue, answer, year);
            var after, tally := o.after.shop.orderTxs, Tallied(s, overdue, answer, o.reply);
            && |after| == |m.shop.orderTxs| && after == m.shop.orderTxs[x := after[x]]
            && tally.checked == s.checked + 1
            && tally.recovered == s.recovered + RowsEnded(after, Completed)(x)
            && tally.cancelled == s.cancelled + RowsEnded(after, Abandoned)(x)
            && tally.errors == s.errors + RowsFailed(after, (y: nat) => answer)(x)
  {
    ReconciledRow(m, x, oldest, answer, year);
    if answer.PaidInFull? {
      SettledReply(m, x, answer.amount, year);
    }
  }

  lemma SettledReply(m: Market, x: nat, amount: Option<int>, year: nat)
    requires MarketInv(m) && x < |m.shop.orderTxs| && m.shop.orderTxs[x].status == Initiated
    ensures var o := SettleOrderPayment(m, x, amount, year);
            |o.after.shop.orderTxs| == |m.shop.orderTxs|
            && (o.reply == Ok <==> o.after.shop.orderTxs[x].status == Completed)
  {
    assert TxOK(m.shop.orderTxs[x], Keys(m.books.journals), m.shop.orders);
  }

  /** The report of a pass counts the rows it leaves: how many completed, how many were abandoned, and
      how many got no answer or were confirmed in vain. */
  lemma {:induction false} ReportMatchesRows(m: Market, picked: seq<nat>, oldest: int, answers: nat -> Answer,
                                             year: nat)
    requires MarketInv(m) && AllDistinct(picked)
    requires forall k | 0 <= k < |picked| ::
               picked[k] < |m.shop.orderTxs| && m.shop.orderTxs[picked[k]].status == Initiated
    ensures var pass := ReconcileEach(m, picked, oldest, answers, year);
            var txs := pass.market.shop.orderTxs;
            && pass.stats.checked == |picked|
            && pass.stats.recovered == SumBy<nat>(picked, RowsEnded(txs, Completed))
            && pass.stats.cancelled == SumBy<nat>(picked, RowsEnded(txs, Abandoned))
            && pass.stats.errors == SumBy<nat>(picked, RowsFailed(txs, answers))
  {
    if picked != [] {
      var rest, x := picked[..|picked| - 1], picked[|picked| - 1];
      assert forall k | 0 <= k < |rest| :: rest[k] == picked[k];
      SplitLast(picked);
      ReportMatchesRows(m, rest, oldest, answers, year);
      ReconcileDecides(m, rest, oldest, answers, year);
      var mid := ReconcileEach(m, rest, oldest, answers, year);
      TallyRow(mid.market, x, oldest, answers(x), year, mid.stats);
      var before := mid.market.shop.orderTxs;
      var after := ReconcileEach(m, picked, oldest, answers, year).market.shop.orderTxs;
      assert after == before[x := after[x]];
      SameCounts(rest, before, after, answers);
    }
  }

  lemma SameCounts(ids: seq<nat>, before: seq<OrderTx>, after: seq<OrderTx>, answers: nat -> Answer)
    requires |after| == |before| && forall x | x in ids && x < |before| :: after[x] == before[x]
    ensures SumBy<nat>(ids, RowsEnded(after, Completed)) == SumBy<nat>(ids, RowsEnded(before, Completed))
    ensures SumBy<nat>(ids, RowsEnded(after, Abandoned)) == SumBy<nat>(ids, RowsEnded(before, Abandoned))
    ensures SumBy<nat>(ids, RowsFailed(after, answers)) == SumBy<nat>(ids, RowsFailed(before, answers))
  {
    SumBySame<nat>(ids, RowsEnded(after, Completed), RowsEnded(before, Completed));
    SumBySame<nat>(ids, RowsEnded(after, Abandoned), RowsEnded(before, Abandoned));
    SumBySame<nat>(ids, RowsFailed(after, answers), RowsFailed(before, answers));
  }

  // ---- reconciling subscription payments ----

  predicate SaleOpenFor(pm: Payment, now: int, age: int) {
    pm.status == Initiated && pm.createdAt + age < now
  }

  /** The status that bKash's answer makes of an open payment. */
  function SaleAsAnswered(pm: Payment, now: int, cancelAfter: int, answer: Answer): TxStatus {
    match answer
    case Unreachable => Initiated
    case NotPaid => if pm.createdAt + cancelAfter < now then Abandoned else Initiated
    case PaidInFull(amount) =>
      if amount.Some? && amount.value != pm.amount then NeedsReview else if pm.amount < 0 then Initiated else Completed
  }

  lemma OpenSalesArePicked(payments: seq<Payment>, now: int, minAge: int, batch: nat)
    ensures var picked := Pick(|payments|, batch, StalePayments(payments, now - minAge));
            && AllDistinct(picked)
            && (forall p | p in picked :: p < |payments| && SaleOpenFor(payments[p], now, minAge))
            && (|picked| < batch ==>
                  forall p: nat | p < |payments| && SaleOpenFor(payments[p], now, minAge) :: p in picked)
  {
    var wanted := StalePayments(payments, now - minAge);
    PickFacts(|payments|, batch, wanted);
    forall p: nat | p < |payments| && SaleOpenFor(payments[p], now, minAge) ensures wanted(p) {
    }
    forall p | p in Pick(|payments|, batch, wanted) ensures p < |payments| && SaleOpenFor(payments[p], now, minAge) {
      assert wanted(p);
    }
  }

  ghost predicate SalesAnswered(before: seq<Payment>, after: seq<Payment>, picked: seq<nat>, now: int, minAge: int,
                                cancelAfter: int, answers: nat -> Answer)
  {
    && |after| == |before|
    && (forall p: nat | p < |before| && p in picked ::
          && SaleOpenFor(before[p], now, minAge)
          && after[p].status == SaleAsAnswered(before[p], now, cancelAfter, answers(p)))
    && (forall p: nat | p < |before| && p !in picked :: after[p] == before[p])
  }

  /** A pass leaves every payment alone that is not open for longer than `minAge`, and ends the others as
      bKash answers for them; all of those when they are fewer than its batch. */
  lemma {:induction false} PassTouchesOldSales(t: Till, now: int, minAge: int, cancelAfter: int, batch: nat,
                                               answers: nat -> Answer, year: nat)
    requires RefsOK(t.pay)
    ensures var before := t.pay.payments;
            var picked := Pick(|before|, batch, StalePayments(before, now - minAge));
            var after := ReconcileSales(t, picked, now - cancelAfter, answers, now, year).till.pay.payments;
            && SalesAnswered(before, after, picked, now, minAge, cancelAfter, answers)
            && (|picked| < batch ==>
                  forall p: nat | p < |before| && SaleOpenFor(before[p], now, minAge) :: p in picked)
  {
    OpenSalesArePicked(t.pay.payments, now, minAge, batch);
    SalesAreAnswered(t, Pick(|t.pay.payments|, batch, StalePayments(t.pay.payments, now - minAge)), now, minAge,
                     cancelAfter, answers, year);
  }

  lemma SalesAreAnswered(t: Till, picked: seq<nat>, now: int, minAge: int, cancelAfter: int, answers: nat -> Answer,
                         year: nat)
    requires RefsOK(t.pay) && AllDistinct(picked)
    requires forall p | p in picked :: p < |t.pay.payments| && SaleOpenFor(t.pay.payments[p], now, minAge)
    ensures var after := ReconcileSales(t, picked, now - cancelAfter, answers, now, year).till.pay.payments;
            SalesAnswered(t.pay.payments, after, picked, now, minAge, cancelAfter, answers)
  {
    PassDecides(t, picked, now - cancelAfter, answers, now, year);
  }

  function SalesEnded(payments: seq<Payment>, status: TxStatus): nat -> int {
    (p: nat) => if p < |payments| && payments[p].status == status then 1 else 0
  }

  function SalesFailed(payments: seq<Payment>, answers: nat -> Answer): nat -> int {
    (p: nat) =>
      if answers(p) == Unreachable || (answers(p).PaidInFull? && !(p < |payments| && payments[p].status == Completed))
      then 1 else 0
  }

  lemma TallySale(t: Till, p: nat, oldest: int, answer: Answer, now: int, year: nat, s: Stats)
    requires RefsOK(t.pay) && p < |t.pay.payments| && t.pay.payments[p].status == Initiated
    ensures var overdue := t.pay.payments[p].createdAt < oldest;
            var o := ReconciledSale(t, p, overdue, answer, now, year);
            var after, tally := o.after.pay.payments, Tallied(s, overdue, answer, o.reply);
            && |after| == |t.pay.payments|
            && tally.checked == s.checked + 1
            && tally.recovered == s.recovered + SalesEnded(after, Completed)(p)
            && tally.cancelled == s.cancelled + SalesEnded(after, Abandoned)(p)
            && tally.errors == s.errors + SalesFailed(after, (q: nat) => answer)(p)
  {
    ReconciledSaleRow(t, p, t.pay.payments[p].createdAt < oldest, answer, now, year);
  }

  /** The report counts the payments a pass leaves, as it does for orders. */
  lemma {:induction false} ReportMatchesSales(t: Till, picked: seq<nat>, oldest: int, answers: nat -> Answer, now: int,
                                              year: nat)
    requires RefsOK(t.pay) && AllDistinct(picked)
    requires forall p | p in picked :: p < |t.pay.payments| && t.pay.payments[p].status == Initiated
    ensures var pass := ReconcileSales(t, picked, oldest, answers, now, year);
            var payments := pass.till.pay.payments;
            && pass.stats.checked == |picked|
            && pass.stats.recovered == SumBy<nat>(picked, SalesEnded(payments, Completed))
            && pass.stats.cancelled == SumBy<nat>(picked, SalesEnded(payments, Abandoned))
            && pass.stats.errors == SumBy<nat>(picked, SalesFailed(payments, answers))
  {
    if picked != [] {
      var rest, p := picked[..|picked| - 1], picked[|picked| - 1];
      SplitLast(picked);
      ReportMatchesSales(t, rest, oldest, answers, now, year);
      PassDecides(t, rest, oldest, answers, now, year);
      var mid := ReconcileSales(t, rest, oldest, answers, now, year);
      TallySale(mid.till, p, oldest, answers(p), now, year, mid.stats);
      ReconciledSaleRow(mid.till, p, t.pay.payments[p].createdAt < oldest, answers(p), now, year);
      var after := ReconcileSales(t, picked, oldest, answers, now, year).till.pay.payments;
      SameSaleCounts(rest, mid.till.pay.payments, after, answers);
    }
  }

  lemma SameSaleCounts(ids: seq<nat>, before: seq<Payment>, after: seq<Payment>, answers: nat -> Answer)
    requires |after| == |before| && forall p | p in ids && p < |before| :: after[p] == before[p]
    ensures SumBy<nat>(ids, SalesEnded(after, Completed)) == SumBy<nat>(ids, SalesEnded(before, Completed))
    ensures SumBy<nat>(ids, SalesEnded(after, Abandoned)) == SumBy<nat>(ids, SalesEnded(before, Abandoned))
    ensures SumBy<nat>(ids, SalesFailed(after, answers)) == SumBy<nat>(ids, SalesFailed(before, answers))
  {
    SumBySame<nat>(ids, SalesEnded(after, Completed), SalesEnded(before, Completed));
    SumBySame<nat>(ids, SalesEnded(after, Abandoned), SalesEnded(before, Abandoned));
    SumBySame<nat>(ids, SalesFailed(after, answers), SalesFailed(before, answers));
  }
}
