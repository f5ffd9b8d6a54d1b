/** Payouts over whole runs: settled once, restored by a rejection, never overdrawing a seller. */
module Payouts {
  import opened Sums
  import opened Ledger
  import opened Commission
  import opened Release
  import opened Shop
  import opened MarketSteps
  import opened MarketLaws
  import opened TillSteps
  import opened TillLaws
  import opened Engine
  import opened ClosedForms
  import opened Safety

  // ---- settling ----

  /** A settled payout stays as it was settled, whatever happens next. */
  lemma {:induction false} SettledOnce(s: State, run: seq<Tick>, k: nat)
    requires k < |s.shop.payouts| && s.shop.payouts[k].status != Requested
    ensures k < |RunFrom(s, run).shop.payouts| && RunFrom(s, run).shop.payouts[k] == s.shop.payouts[k]
  {
    if run != [] {
      SettledOnce(s, run[..|run| - 1], k);
      PayoutRows(RunFrom(s, run[..|run| - 1]), run[|run| - 1]);
    }
  }

  ghost predicate PayoutsGrow(before: seq<Payout>, after: seq<Payout>, step: Step) {
    && |before| <= |after|
    && (forall k | 0 <= k < |before| ::
          after[k] == before[k] || (before[k].status == Requested && after[k] == before[k].(status := after[k].status)))
    && (forall k | |before| <= k < |after| :: step == CommitRequest(after[k].merchant))
  }

  lemma MarketPayouts(m: Market, t: Tick)
    requires MarketStep(t.step)
    ensures PayoutsGrow(m.shop.payouts, MarketAfter(m, t).shop.payouts, t.step)
  {
    match t.step
    case CommitRequest(_) =>
    case SettleRequest(_, _) =>
    case _ =>
  }

  /** The payout table only grows by requests and only settles what is requested. */
  lemma PayoutRows(s: State, t: Tick)
    ensures PayoutsGrow(s.shop.payouts, After(s, t).shop.payouts, t.step)
    ensures !t.commits ==> After(s, t) == s
  {
    if t.commits && MarketStep(t.step) {
      MarketPayouts(Market(s.books, s.shop), t);
    }
  }

  lemma RequestWrites(m: Market, id: nat, amount: int, a: Account)
    requires MarketInv(m) && RequestPayout(m, id, amount).reply == Ok
    ensures var n, asked := |m.shop.payouts|, RequestPayout(m, id, amount).after;
            && asked.shop.payouts == m.shop.payouts + [Payout(id, amount, Requested)] && amount > 0
            && LedgerInv(asked.books.journals)
            && Keys(asked.books.journals) == Keys(m.books.journals) + {Key(PayoutRequest, OfPayout(n))}
            && Balance(asked.books.journals, a) ==
               Balance(m.books.journals, a) + TransferNet(MerchantAccount(id), PayoutsPending, amount, a)
  {
    var key := Key(PayoutRequest, OfPayout(|m.shop.payouts|));
    NewPayoutKeys(m);
    TransferFacts(MerchantAccount(id), PayoutsPending, amount, a);
    PostKeepsLedger(m.books.journals, key, PayoutLines(Payout(id, amount, Requested)));
  }

  lemma NewPayoutKeys(m: Market)
    requires MarketInv(m)
    ensures forall k | k in Keys(m.books.journals) :: k.source != OfPayout(|m.shop.payouts|)
  {
  }

  lemma SettlementWrites(m: Market, k: nat, to: PayoutStatus, a: Account)
    requires LedgerInv(m.books.journals) && to != Requested
    requires k < |m.shop.payouts| && m.shop.payouts[k].status == Requested && m.shop.payouts[k].amount >= 0
    requires Key(SettleKind(to), OfPayout(k)) !in Keys(m.books.journals)
    ensures SettlePayout(m, k, to).reply == Ok
    ensures var p := m.shop.payouts[k];
            Balance(SettlePayout(m, k, to).after.books.journals, a) ==
            Balance(m.books.journals, a)
            + TransferNet(PayoutsPending, if to == Transferred then CashOut else MerchantAccount(p.merchant),
                          p.amount, a)
  {
    var p := m.shop.payouts[k];
    TransferFacts(PayoutsPending, if to == Transferred then CashOut else MerchantAccount(p.merchant), p.amount, a);
    PostKeepsLedger(m.books.journals, Key(SettleKind(to), OfPayout(k)), SettleLines(p, to));
  }

  /** Whatever came in between, settling a requested payout goes through and moves exactly its amount out
      of what is pending: to cash-out, or back to the seller when it is rejected. */
  lemma {:induction false} SettlementMoves(m: Market, k: nat, to: PayoutStatus, a: Account)
    requires MarketInv(m) && to != Requested
    requires k < |m.shop.payouts| && m.shop.payouts[k].status == Requested
    ensures var p, after := m.shop.payouts[k], SettlePayout(m, k, to);
            && after.reply == Ok
            && Balance(after.after.books.journals, a) - Balance(m.books.journals, a) ==
               if a == PayoutsPending then -p.amount
               else if a == CashOut then (if to == Transferred then p.amount else 0)
               else if a == MerchantAccount(p.merchant) then (if to == Rejected then p.amount else 0)
               else 0
  {
    var keys := Keys(m.books.journals);
    assert PayoutOK(m.shop.payouts[k], Key(PayoutRequest, OfPayout(k)) in keys, Key(PayoutPaid, OfPayout(k)) in keys,
                    Key(PayoutRejected, OfPayout(k)) in keys);
    SettlementWrites(m, k, to, a);
  }

  /** Once a payout is rejected its journals cancel out, on every account and in all later runs. */
  lemma {:induction false} RejectionIsForever(s: State, run: seq<Tick>, k: nat, a: Account)
    requires MoneyInv(s) && k < |s.shop.payouts| && s.shop.payouts[k].status == Rejected
    ensures SourceBalance(RunFrom(s, run).books.journals, OfPayout(k), a) == 0
  {
    var late := RunFrom(s, run);
    EveryRunKeepsMoney(s, run);
    SettledOnce(s, run, k);
    JournalsPlaced(late, a);
    SourceBalanceIsPart(late.books.journals, OfPayout(k), PAYOUT_KINDS, StateNet(late, a), a);
    PayoutAmounts(late, a, k);
  }

  /** Asking a payout out and rejecting it restores every account exactly. */
  lemma RejectionRestores(m: Market, id: nat, amount: int, a: Account)
    requires MarketInv(m) && RequestPayout(m, id, amount).reply == Ok
    ensures var asked := RequestPayout(m, id, amount).after;
            var rejected := SettlePayout(asked, |m.shop.payouts|, Rejected);
            && rejected.reply == Ok
            && Balance(rejected.after.books.journals, a) == Balance(m.books.journals, a)
  {
    NewPayoutKeys(m);
    RequestWrites(m, id, amount, a);
    SettlementWrites(RequestPayout(m, id, amount).after, |m.shop.payouts|, Rejected, a);
  }

  // ---- no overdraft ----

  predicate SellsIn(o: Order, id: nat) {
    exists it | it in o.items :: it.merchant == id
  }

  /** The only steps besides a payout that take from a seller: commission on a cash sale, and the
      refund of a sale already released. */
  predicate OutsideDebit(s: State, t: Tick, id: nat) {
    t.commits &&
    match t.step
    case Release(i) =>
      i < |s.shop.orders| && s.shop.orders[i].payBy == CashOnDelivery && SellsIn(s.shop.orders[i], id)
    case RefundBuyer(i, _) =>
      i < |s.shop.orders| && ReleaseKey(i) in Keys(s.books.journals) && SellsIn(s.shop.orders[i], id)
    case _ => false
  }

  lemma NoShareUnsold(o: Order, id: nat)
    requires !SellsIn(o, id)
    ensures SellerShare(o, id) == 0
  {
    NoSum(o.items, Only(id, LedgerNet()));
    NoSum(o.items, Only(id, CommissionWeight()));
  }

  lemma {:induction false} NoDebitNet(lines: seq<Line>, a: Account)
    requires forall l | l in lines :: ValidLine(l) && (l.account == a ==> l.debit == 0)
    ensures Net(lines, a) >= 0
  {
    if lines != [] {
      assert forall l | l in lines[..|lines| - 1] :: l in lines;
      NoDebitNet(lines[..|lines| - 1], a);
      assert lines[|lines| - 1] in lines;
    }
  }

  lemma {:induction false} SellersAreCredited(platform: set<nat>, ids: seq<nat>, items: seq<Item>, id: nat)
    ensures forall l | l in LinesOver(true, platform, ids, items) :: l.account == MerchantAccount(id) ==> l.debit == 0
  {
    if ids != [] {
      SellersAreCredited(platform, ids[..|ids| - 1], items, id);
    }
  }

  /** A bKash release that the ledger accepted takes nothing from any seller. */
  lemma AcceptedReleasePays(o: Order, platform: set<nat>, id: nat)
    requires o.payBy == Bkash && id !in platform && Sound(ReleaseLines(true, platform, o.items))
    ensures SellerShare(o, id) >= 0
  {
    SellersAreCredited(platform, Sellers(o.items), o.items, id);
    NoDebitNet(ReleaseLines(true, platform, o.items), MerchantAccount(id));
    ReleaseMovesPerLineSums(true, platform, o.items, MerchantAccount(id));
    SellerNet(o, platform, id);
  }

  lemma NewReleasePays(m: Market, i: nat, year: nat, id: nat)
    requires MarketInv(m) && i < |m.shop.orders| && m.shop.orders[i].payBy == Bkash && id !in Platform(m.shop.merchants)
    requires ReleaseKey(i) !in Keys(m.books.journals) && ReleaseKey(i) in Keys(Deliver(m, i, year).after.books.journals)
    ensures SellerShare(m.shop.orders[i], id) >= 0
  {
    AcceptedReleasePays(m.shop.orders[i], Platform(m.shop.merchants), id);
  }

  /** How a step can touch the release journal and the refund row of order i. */
  lemma Marks(s: State, t: Tick, i: nat)
    requires MoneyInv(s)
    ensures var keys, keys' := Keys(s.books.journals), Keys(After(s, t).books.journals);
            && (ReleaseKey(i) in keys ==> ReleaseKey(i) in keys')
            && (ReleaseKey(i) in keys' && ReleaseKey(i) !in keys ==>
                t.commits && t.step == Step.Release(i) && i < |s.shop.orders|)
    ensures i in s.shop.refunded ==> i in After(s, t).shop.refunded
    ensures i in After(s, t).shop.refunded && i !in s.shop.refunded ==>
            t.commits && t.step.RefundBuyer? && t.step.order == i
  {
    if t.commits && Possible(s, t.step) {
      if MarketStep(t.step) {
        StepMarks(Market(s.books, s.shop), t, i);
        RefundMarks(Market(s.books, s.shop), t, i);
      } else {
        TillLeavesMarket(Till(s.books, s.pay), t);
        HalfKeptKeys(s.books, After(s, t).books, false);
      }
    }
  }

  lemma SellerShareRises(o: Order, o': Order, platform: set<nat>, id: nat, paid: bool, paid': bool, released: bool,
                         released': bool, refunded: bool, refunded': bool)
    requires o'.items == o.items && o'.payBy == o.payBy
    requires (released ==> released') && (refunded ==> refunded')
    requires released' && !released && id !in platform ==>
             if o.payBy == Bkash then SellerShare(o, id) >= 0 else !SellsIn(o, id)
    requires refunded' && !refunded && released ==> !SellsIn(o, id)
    ensures OrderMoves(o, platform, paid, released, refunded, MerchantAccount(id))
            <= OrderMoves(o', platform, paid', released', refunded', MerchantAccount(id))
  {
    if !SellsIn(o, id) {
      NoShareUnsold(o, id);
    }
  }

  lemma FirstReleasePays(s: State, t: Tick, id: nat, i: nat)
    requires MoneyInv(s) && !OutsideDebit(s, t, id) && i < |s.shop.orders|
    ensures var keys, keys' := Keys(s.books.journals), Keys(After(s, t).books.journals);
            ReleaseKey(i) in keys' && ReleaseKey(i) !in keys && id !in Platform(s.shop.merchants) ==>
              if s.shop.orders[i].payBy == Bkash then SellerShare(s.shop.orders[i], id) >= 0
              else !SellsIn(s.shop.orders[i], id)
  {
    Marks(s, t, i);
    var keys, keys' := Keys(s.books.journals), Keys(After(s, t).books.journals);
    if ReleaseKey(i) in keys' && ReleaseKey(i) !in keys && id !in Platform(s.shop.merchants)
       && s.shop.orders[i].payBy == Bkash
    {
      NewReleasePays(Market(s.books, s.shop), i, t.year, id);
    }
  }

  lemma TermsStay(s: State, t: Tick, i: nat)
    requires MoneyInv(s) && i < |s.shop.orders|
    ensures var shop := After(s, t).shop;
            && shop.merchants == s.shop.merchants && i < |shop.orders|
            && shop.orders[i].items == s.shop.orders[i].items && shop.orders[i].payBy == s.shop.orders[i].payBy
  {
    StepKeepsMoney(s, t);
  }

  lemma {:induction false} OrderShareRises(s: State, t: Tick, id: nat, i: nat, s': State)
    requires MoneyInv(s) && !OutsideDebit(s, t, id) && i < |s.shop.orders| && s' == After(s, t)
    ensures OrderShare(s, MerchantAccount(id))(i) <= OrderShare(s', MerchantAccount(id))(i)
  {
    var keys, keys' := Keys(s.books.journals), Keys(s'.books.journals);
    Marks(s, t, i);
    TermsStay(s, t, i);
    FirstReleasePays(s, t, id, i);
    SellerShareRises(s.shop.orders[i], s'.shop.orders[i], Platform(s.shop.merchants), id, PayKey(i) in keys,
                     PayKey(i) in keys', ReleaseKey(i) in keys, ReleaseKey(i) in keys', i in s.shop.refunded,
                     i in s'.shop.refunded);
  }

  lemma KnownOrders(m: Market, i: nat)
    requires MarketInv(m) && i >= |m.shop.orders|
    ensures ReleaseKey(i) !in Keys(m.books.journals)
  {
  }

  lemma NewOrderShare(s: State, t: Tick, id: nat, i: nat)
    requires MoneyInv(s) && i >= |s.shop.orders|
    ensures OrderShare(After(s, t), MerchantAccount(id))(i) == 0
  {
    Marks(s, t, i);
    KnownOrders(Market(s.books, s.shop), i);
  }

  lemma PayoutShareRises(s: State, t: Tick, id: nat)
    requires MoneyInv(s) && !(t.commits && t.step == CommitRequest(id))
    ensures SumTo(|s.shop.payouts|, PayoutShare(s, MerchantAccount(id)))
            <= SumTo(|After(s, t).shop.payouts|, PayoutShare(After(s, t), MerchantAccount(id)))
  {
    PayoutRows(s, t);
    var keys := Keys(s.books.journals);
    forall k: nat | k < |s.shop.payouts|
      ensures PayoutShare(s, MerchantAccount(id))(k) <= PayoutShare(After(s, t), MerchantAccount(id))(k)
    {
      assert PayoutOK(s.shop.payouts[k], Key(PayoutRequest, OfPayout(k)) in keys, Key(PayoutPaid, OfPayout(k)) in keys,
                      Key(PayoutRejected, OfPayout(k)) in keys);
    }
    SumToRises(|s.shop.payouts|, |After(s, t).shop.payouts|, PayoutShare(s, MerchantAccount(id)),
               PayoutShare(After(s, t), MerchantAccount(id)));
  }

  /** But for cash-sale commission and refunds, only the seller's own payouts lower the balance. */
  lemma {:induction false} BalanceRises(s: State, t: Tick, id: nat)
    requires MoneyInv(s) && !OutsideDebit(s, t, id) && !(t.commits && t.step == CommitRequest(id))
    ensures Balance(s.books.journals, MerchantAccount(id)) <= Balance(After(s, t).books.journals, MerchantAccount(id))
  {
    StepKeepsMoney(s, t);
    SellerBalance(s, id);
    SellerBalance(After(s, t), id);
    forall i: nat
      ensures i < |s.shop.orders| ==>
              OrderShare(s, MerchantAccount(id))(i) <= OrderShare(After(s, t), MerchantAccount(id))(i)
      ensures i >= |s.shop.orders| ==> OrderShare(After(s, t), MerchantAccount(id))(i) == 0
    {
      if i < |s.shop.orders| {
        OrderShareRises(s, t, id, i, After(s, t));
      } else {
        NewOrderShare(s, t, id, i);
      }
    }
    SumToRises(|s.shop.orders|, |After(s, t).shop.orders|, OrderShare(s, MerchantAccount(id)),
               OrderShare(After(s, t), MerchantAccount(id)));
    PayoutShareRises(s, t, id);
  }

  /** Writing the request takes exactly the reserved amount. */
  lemma CommitTakesReserved(m: Market, id: nat)
    requires MarketInv(m) && id in m.shop.reserving
    ensures Balance(CommitPayout(m, id).books.journals, MerchantAccount(id)) ==
            Balance(m.books.journals, MerchantAccount(id)) - m.shop.reserving[id]
  {
    var n := |m.shop.payouts|;
    var p := Payout(id, m.shop.reserving[id], Requested);
    assert Key(PayoutRequest, OfPayout(n)) !in Keys(m.books.journals);
    TransferFacts(MerchantAccount(id), PayoutsPending, p.amount, MerchantAccount(id));
    PostKeepsLedger(m.books.journals, Key(PayoutRequest, OfPayout(n)), PayoutLines(p));
  }

  /** The balance covers the request that is under way, if any. */
  predicate Covered(s: State, id: nat) {
    && Balance(s.books.journals, MerchantAccount(id)) >= 0
    && (id in s.shop.reserving ==> Balance(s.books.journals, MerchantAccount(id)) >= s.shop.reserving[id])
  }

  lemma StepKeepsCover(s: State, t: Tick, id: nat)
    requires MoneyInv(s) && !OutsideDebit(s, t, id) && Covered(s, id)
    ensures Covered(After(s, t), id)
  {
    if t.commits && t.step == CommitRequest(id) {
      if id in s.shop.reserving {
        CommitTakesReserved(Market(s.books, s.shop), id);
      }
    } else {
      BalanceRises(s, t, id);
      Reservation(s, t, id);
    }
  }

  lemma MarketReservation(m: Market, t: Tick, id: nat)
    requires MarketStep(t.step) && t.step != CommitRequest(id)
    ensures var before, after := m.shop.reserving, MarketAfter(m, t).shop.reserving;
            && (id in before ==> t.step == DropRequest(id) || (id in after && after[id] == before[id]))
            && (id in after && id !in before ==>
                  MarketAfter(m, t).books == m.books && after[id] <= Balance(m.books.journals, MerchantAccount(id)))
  {
    match t.step
    case BeginRequest(_, _) =>
    case CommitRequest(_) =>
    case DropRequest(_) =>
    case _ =>
  }

  /** A reservation is only made for what the balance covers, and one at a time per seller. */
  lemma Reservation(s: State, t: Tick, id: nat)
    requires !(t.commits && t.step == CommitRequest(id))
    ensures var before, after := s.shop.reserving, After(s, t).shop.reserving;
            && (id in before ==> t.step == DropRequest(id) || (id in after && after[id] == before[id]))
            && (id in after && id !in before ==>
                  After(s, t).books == s.books && after[id] <= Balance(s.books.journals, MerchantAccount(id)))
  {
    if t.commits && MarketStep(t.step) {
      MarketReservation(Market(s.books, s.shop), t, id);
    }
  }

  ghost predicate NoOutsideDebit(s: State, run: seq<Tick>, id: nat) {
    forall i | 0 <= i < |run| :: !OutsideDebit(RunFrom(s, run[..i]), run[i], id)
  }

  lemma {:induction false} CoverIsKept(s: State, run: seq<Tick>, id: nat)
    requires MoneyInv(s) && NoOutsideDebit(s, run, id) && Covered(s, id)
    ensures Covered(RunFrom(s, run), id)
  {
    if run != [] {
      var rest, t := run[..|run| - 1], run[|run| - 1];
      EveryRunKeepsMoney(s, rest);
      DebitPrefix(s, run, id);
      CoverIsKept(s, rest, id);
      StepKeepsCover(RunFrom(s, rest), t, id);
    }
  }

  /** However many payout requests interleave with everything else, a seller's balance never falls
      below zero unless cash-sale commission or the refund of a released sale takes it there. */
  lemma {:induction false} NeverOverdrawn(s: State, run: seq<Tick>, id: nat)
    requires MoneyInv(s) && NoOutsideDebit(s, run, id) && Covered(s, id)
    ensures Balance(RunFrom(s, run).books.journals, MerchantAccount(id)) >= 0
  {
    CoverIsKept(s, run, id);
    EveryRunKeepsMoney(s, run);
  }

  lemma DebitPrefix(s: State, run: seq<Tick>, id: nat)
    requires NoOutsideDebit(s, run, id) && run != []
    ensures NoOutsideDebit(s, run[..|run| - 1], id) && !OutsideDebit(RunFrom(s, run[..|run| - 1]), run[|run| - 1], id)
  {
    var rest := run[..|run| - 1];
    forall i | 0 <= i < |rest| ensures !OutsideDebit(RunFrom(s, rest[..i]), rest[i], id) {
      assert rest[..i] == run[..i];
    }
  }
}
