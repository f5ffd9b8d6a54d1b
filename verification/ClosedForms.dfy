/** Every account's balance is a sum over orders, payments and payouts, in every reachable state. */
module ClosedForms {
  import opened Sums
  import opened Ledger
  import opened Commission
  import opened Release
  import opened Invoices
  import opened Shop
  import opened MarketSteps
  import opened MarketLaws
  import opened TillSteps
  import opened TillLaws
  import opened Engine

  // ---- from journals to their sources ----

  /** What a business object's journals amount to, of the kinds it can have. */
  function KindsNet(keys: set<Key>, source: Source, kinds: seq<Kind>, net: Key -> int): int {
    if kinds == [] then 0 else
      var k := Key(kinds[|kinds| - 1], source);
      KindsNet(keys, source, kinds[..|kinds| - 1], net) + if k in keys then net(k) else 0
  }

  const ORDER_KINDS := [OrderPayment, OrderRelease, RefundOf(OrderPayment), RefundOf(OrderRelease)]
  const PAYMENT_KINDS := [SubscriptionPayment, RefundOf(SubscriptionPayment)]
  const PAYOUT_KINDS := [PayoutRequest, PayoutPaid, PayoutRejected]

  function OrdersPart(keys: set<Key>, net: Key -> int): nat -> int {
    (i: nat) => KindsNet(keys, OfOrder(i), ORDER_KINDS, net)
  }

  function PaymentsPart(keys: set<Key>, net: Key -> int): nat -> int {
    (p: nat) => KindsNet(keys, OfPayment(p), PAYMENT_KINDS, net)
  }

  function PayoutsPart(keys: set<Key>, net: Key -> int): nat -> int {
    (k: nat) => KindsNet(keys, OfPayout(k), PAYOUT_KINDS, net)
  }

  function Total(s: State, keys: set<Key>, net: Key -> int): int {
    SumTo(|s.shop.orders|, OrdersPart(keys, net)) + SumTo(|s.pay.payments|, PaymentsPart(keys, net))
    + SumTo(|s.shop.payouts|, PayoutsPart(keys, net))
  }

  function StateNet(s: State, a: Account): Key -> int {
    (k: Key) => if k.source.OfPayment? then PayKeyNet(s.pay, k, a) else KeyNet(s.shop, k, a)
  }

  lemma {:induction false} KindsNetOther(keys: set<Key>, k: Key, source: Source, kinds: seq<Kind>, net: Key -> int)
    requires source != k.source || k.kind !in kinds
    ensures KindsNet(keys + {k}, source, kinds, net) == KindsNet(keys, source, kinds, net)
  {
    if kinds != [] {
      KindsNetOther(keys, k, source, kinds[..|kinds| - 1], net);
    }
  }

  lemma {:induction false} KindsNetAdds(keys: set<Key>, k: Key, kinds: seq<Kind>, net: Key -> int)
    requires k !in keys && k.kind in kinds
    requires forall i, j | 0 <= i < j < |kinds| :: kinds[i] != kinds[j]
    ensures KindsNet(keys + {k}, k.source, kinds, net) == KindsNet(keys, k.source, kinds, net) + net(k)
  {
    var rest, last := kinds[..|kinds| - 1], kinds[|kinds| - 1];
    if k.kind == last {
      KindsNetOther(keys, k, k.source, rest, net);
    } else {
      KindsNetAdds(keys, k, rest, net);
    }
  }

  /** A key whose object the state knows. */
  predicate Placed(s: State, k: Key) {
    match k.source
    case OfOrder(i) => i < |s.shop.orders| && k.kind in ORDER_KINDS
    case OfPayment(p) => p < |s.pay.payments| && k.kind in PAYMENT_KINDS
    case OfPayout(x) => x < |s.shop.payouts| && k.kind in PAYOUT_KINDS
  }

  lemma TotalAdds(s: State, keys: set<Key>, k: Key, net: Key -> int)
    requires k !in keys && Placed(s, k)
    ensures Total(s, keys + {k}, net) == Total(s, keys, net) + net(k)
  {
    var keys' := keys + {k};
    forall i: nat ensures OfOrder(i) != k.source ==> OrdersPart(keys', net)(i) == OrdersPart(keys, net)(i) {
      if OfOrder(i) != k.source {
        KindsNetOther(keys, k, OfOrder(i), ORDER_KINDS, net);
      }
    }
    forall p: nat ensures OfPayment(p) != k.source ==> PaymentsPart(keys', net)(p) == PaymentsPart(keys, net)(p) {
      if OfPayment(p) != k.source {
        KindsNetOther(keys, k, OfPayment(p), PAYMENT_KINDS, net);
      }
    }
    forall x: nat ensures OfPayout(x) != k.source ==> PayoutsPart(keys', net)(x) == PayoutsPart(keys, net)(x) {
      if OfPayout(x) != k.source {
        KindsNetOther(keys, k, OfPayout(x), PAYOUT_KINDS, net);
      }
    }
    TotalMoves(s, keys, k, net);
  }

  lemma TotalMoves(s: State, keys: set<Key>, k: Key, net: Key -> int)
    requires k !in keys && Placed(s, k)
    requires forall i: nat :: OfOrder(i) != k.source ==> OrdersPart(keys + {k}, net)(i) == OrdersPart(keys, net)(i)
    requires forall p: nat :: OfPayment(p) != k.source ==>
             PaymentsPart(keys + {k}, net)(p) == PaymentsPart(keys, net)(p)
    requires forall x: nat :: OfPayout(x) != k.source ==> PayoutsPart(keys + {k}, net)(x) == PayoutsPart(keys, net)(x)
    ensures Total(s, keys + {k}, net) == Total(s, keys, net) + net(k)
  {
    var keys' := keys + {k};
    if !k.source.OfOrder? {
      SumToSame(|s.shop.orders|, OrdersPart(keys, net), OrdersPart(keys', net));
    }
    if !k.source.OfPayment? {
      SumToSame(|s.pay.payments|, PaymentsPart(keys, net), PaymentsPart(keys', net));
    }
    if !k.source.OfPayout? {
      SumToSame(|s.shop.payouts|, PayoutsPart(keys, net), PayoutsPart(keys', net));
    }
    match k.source
    case OfOrder(i) =>
      KindsNetAdds(keys, k, ORDER_KINDS, net);
      SumToUpdate(|s.shop.orders|, OrdersPart(keys, net), OrdersPart(keys', net), i);
    case OfPayment(p) =>
      KindsNetAdds(keys, k, PAYMENT_KINDS, net);
      SumToUpdate(|s.pay.payments|, PaymentsPart(keys, net), PaymentsPart(keys', net), p);
    case OfPayout(x) =>
      KindsNetAdds(keys, k, PAYOUT_KINDS, net);
      SumToUpdate(|s.shop.payouts|, PayoutsPart(keys, net), PayoutsPart(keys', net), x);
  }

  lemma {:induction false} KindsNetEmpty(source: Source, kinds: seq<Kind>, net: Key -> int)
    ensures KindsNet({}, source, kinds, net) == 0
  {
    if kinds != [] {
      KindsNetEmpty(source, kinds[..|kinds| - 1], net);
    }
  }

  lemma TotalEmpty(s: State, net: Key -> int)
    ensures Total(s, {}, net) == 0
  {
    forall i: nat ensures OrdersPart({}, net)(i) == 0 && PaymentsPart({}, net)(i) == 0 && PayoutsPart({}, net)(i) == 0 {
      KindsNetEmpty(OfOrder(i), ORDER_KINDS, net);
      KindsNetEmpty(OfPayment(i), PAYMENT_KINDS, net);
      KindsNetEmpty(OfPayout(i), PAYOUT_KINDS, net);
    }
    SumToZero(|s.shop.orders|, OrdersPart({}, net));
    SumToZero(|s.pay.payments|, PaymentsPart({}, net));
    SumToZero(|s.shop.payouts|, PayoutsPart({}, net));
  }

  lemma LastKeyIsNew(journals: seq<Journal>)
    requires journals != [] && forall i, k | 0 <= i < k < |journals| :: journals[i].key != journals[k].key
    ensures var rest, key := journals[..|journals| - 1], journals[|journals| - 1].key;
            key !in Keys(rest) && Keys(journals) == Keys(rest) + {key}
  {
  }

  lemma {:induction false} BalanceIsTotal(s: State, journals: seq<Journal>, a: Account)
    requires forall j | j in journals :: Placed(s, j.key) && Net(j.entries, a) == StateNet(s, a)(j.key)
    requires forall i, k | 0 <= i < k < |journals| :: journals[i].key != journals[k].key
    ensures Balance(journals, a) == Total(s, Keys(journals), StateNet(s, a))
  {
    if journals == [] {
      TotalEmpty(s, StateNet(s, a));
      assert Keys(journals) == {};
    } else {
      var rest, j := journals[..|journals| - 1], journals[|journals| - 1];
      assert journals == rest + [j];
      assert j in journals && forall x | x in rest :: x in journals;
      BalanceIsTotal(s, rest, a);
      LastKeyIsNew(journals);
      TotalAdds(s, Keys(rest), j.key, StateNet(s, a));
    }
  }

  // ---- what each business object stands for ----

  /** An order moves money while it is booked (its payment is in the ledger), released and not refunded. */
  function OrderMoves(o: Order, platform: set<nat>, booked: bool, released: bool, refunded: bool, a: Account): int {
    if refunded then 0 else
      match a
      case GatewayBkash => if booked then -o.total else 0
      case OrdersEscrow => if !booked then 0 else if released then o.delivery else o.total
      case MerchantAccount(m) => if released && m !in platform then SellerShare(o, m) else 0
      case RevenueCommission => if released then ReleaseNet(o.payBy == Bkash, platform, o.items, a) else 0
      case RevenuePlatform => if released then ReleaseNet(o.payBy == Bkash, platform, o.items, a) else 0
      case _ => 0
  }

  function OrderShare(s: State, a: Account): nat -> int {
    (i: nat) =>
      var keys := Keys(s.books.journals);
      if i >= |s.shop.orders| then 0
      else OrderMoves(s.shop.orders[i], Platform(s.shop.merchants), PayKey(i) in keys, ReleaseKey(i) in keys,
                      i in s.shop.refunded, a)
  }

  /** A seller earns gross less commission on bKash sales and owes the commission on cash sales. */
  function SellerShare(o: Order, m: nat): int {
    if o.payBy == Bkash then WeighOf(o.items, m, LedgerNet()) else -WeighOf(o.items, m, CommissionWeight())
  }

  /** A payment moves money once it is booked, until its sale is reversed. */
  function PaymentShare(s: State, a: Account): nat -> int {
    (p: nat) =>
      var keys := Keys(s.books.journals);
      if p >= |s.pay.payments| || SubKey(p) !in keys || SubRefundKey(p) in keys then 0 else
        match a
        case GatewayBkash => -s.pay.payments[p].amount
        case RevenueSubs => s.pay.payments[p].amount
        case _ => 0
  }

  function PayoutShare(s: State, a: Account): nat -> int {
    (k: nat) =>
      if k >= |s.shop.payouts| then 0 else
        var p := s.shop.payouts[k];
        match a
        case PayoutsPending => if p.status == Requested then p.amount else 0
        case CashOut => if p.status == Transferred then p.amount else 0
        case MerchantAccount(m) => if p.merchant == m && p.status != Rejected then -p.amount else 0
        case _ => 0
  }

  function Expected(s: State, a: Account): int {
    SumTo(|s.shop.orders|, OrderShare(s, a)) + SumTo(|s.pay.payments|, PaymentShare(s, a))
    + SumTo(|s.shop.payouts|, PayoutShare(s, a))
  }

  lemma FourKinds(keys: set<Key>, i: nat, net: Key -> int)
    ensures KindsNet(keys, OfOrder(i), ORDER_KINDS, net) ==
            (if PayKey(i) in keys then net(PayKey(i)) else 0)
              + (if ReleaseKey(i) in keys then net(ReleaseKey(i)) else 0)
            + (if PayRefundKey(i) in keys then net(PayRefundKey(i)) else 0)
            + (if ReleaseRefundKey(i) in keys then net(ReleaseRefundKey(i)) else 0)
  {
    var ks := ORDER_KINDS;
    assert ks[..3][..2] == ks[..2] && ks[..2][..1] == ks[..1] && ks[..1][..0] == [];
    assert KindsNet(keys, OfOrder(i), ks[..1], net) == if PayKey(i) in keys then net(PayKey(i)) else 0;
    assert KindsNet(keys, OfOrder(i), ks[..2], net) ==
           KindsNet(keys, OfOrder(i), ks[..1], net) + if ReleaseKey(i) in keys then net(ReleaseKey(i)) else 0;
    assert KindsNet(keys, OfOrder(i), ks[..3], net) ==
           KindsNet(keys, OfOrder(i), ks[..2], net) + if PayRefundKey(i) in keys then net(PayRefundKey(i)) else 0;
  }

  lemma TwoKinds(keys: set<Key>, p: nat, net: Key -> int)
    ensures KindsNet(keys, OfPayment(p), PAYMENT_KINDS, net) ==
            (if SubKey(p) in keys then net(SubKey(p)) else 0)
              + (if SubRefundKey(p) in keys then net(SubRefundKey(p)) else 0)
  {
    var ks := PAYMENT_KINDS;
    assert ks[..1][..0] == [];
    assert KindsNet(keys, OfPayment(p), ks[..1], net) == if SubKey(p) in keys then net(SubKey(p)) else 0;
  }

  lemma ThreeKinds(keys: set<Key>, x: nat, net: Key -> int)
    ensures var r, t, b := Key(PayoutRequest, OfPayout(x)), Key(PayoutPaid, OfPayout(x)),
            Key(PayoutRejected, OfPayout(x));
            KindsNet(keys, OfPayout(x), PAYOUT_KINDS, net) ==
            (if r in keys then net(r) else 0) + (if t in keys then net(t) else 0) + (if b in keys then net(b) else 0)
  {
    var ks := PAYOUT_KINDS;
    assert ks[..2][..1] == ks[..1] && ks[..1][..0] == [];
    assert KindsNet(keys, OfPayout(x), ks[..1], net) ==
           if Key(PayoutRequest, OfPayout(x)) in keys then net(Key(PayoutRequest, OfPayout(x))) else 0;
    assert KindsNet(keys, OfPayout(x), ks[..2], net) == KindsNet(keys, OfPayout(x), ks[..1], net) +
           if Key(PayoutPaid, OfPayout(x)) in keys then net(Key(PayoutPaid, OfPayout(x))) else 0;
  }

  lemma SellerNet(o: Order, platform: set<nat>, m: nat)
    ensures ReleaseNet(o.payBy == Bkash, platform, o.items, MerchantAccount(m)) ==
            if m in platform then 0 else SellerShare(o, m)
  {
    var bkash := o.payBy == Bkash;
    if m in platform {
      NoSum(o.items, ItemNet(bkash, platform, MerchantAccount(m)));
    } else if bkash {
      SumBySame(o.items, ItemNet(bkash, platform, MerchantAccount(m)), Only(m, LedgerNet()));
    } else {
      NegatedSum(o.items, ItemNet(bkash, platform, MerchantAccount(m)), Only(m, CommissionWeight()));
    }
  }

  lemma {:induction false} NoSum(items: seq<Item>, w: Item -> int)
    requires forall it | it in items :: w(it) == 0
    ensures SumBy(items, w) == 0
  {
    if items != [] {
      NoSum(items[..|items| - 1], w);
    }
  }

  lemma {:induction false} NegatedSum(items: seq<Item>, w: Item -> int, v: Item -> int)
    requires forall it | it in items :: w(it) == -v(it)
    ensures SumBy(items, w) == -SumBy(items, v)
  {
    if items != [] {
      NegatedSum(items[..|items| - 1], w, v);
    }
  }

  lemma OrderAmounts(s: State, a: Account, i: nat)
    requires MoneyInv(s) && i < |s.shop.orders|
    ensures OrdersPart(Keys(s.books.journals), StateNet(s, a))(i) == OrderShare(s, a)(i)
  {
    var keys, net, o := Keys(s.books.journals), StateNet(s, a), s.shop.orders[i];
    assert OrderOK(o, PayKey(i) in keys, ReleaseKey(i) in keys, PayRefundKey(i) in keys, ReleaseRefundKey(i) in keys,
                   i in s.shop.refunded);
    FourKinds(keys, i, net);
    assert net(PayRefundKey(i)) == -net(PayKey(i)) && net(ReleaseRefundKey(i)) == -net(ReleaseKey(i));
    assert net(PayKey(i)) == TransferNet(GatewayBkash, OrdersEscrow, o.total, a);
    assert net(ReleaseKey(i)) == ReleaseNet(o.payBy == Bkash, Platform(s.shop.merchants), o.items, a);
    match a
    case MerchantAccount(m) => SellerNet(o, Platform(s.shop.merchants), m);
    case OrdersEscrow => EscrowSum(Platform(s.shop.merchants), o.items, o.payBy == Bkash);
    case RevenueCommission =>
    case RevenuePlatform =>
    case _ => NoSum(o.items, ItemNet(o.payBy == Bkash, Platform(s.shop.merchants), a));
  }

  lemma PaymentAmounts(s: State, a: Account, p: nat)
    requires MoneyInv(s) && p < |s.pay.payments|
    ensures PaymentsPart(Keys(s.books.journals), StateNet(s, a))(p) == PaymentShare(s, a)(p)
  {
    var keys, net := Keys(s.books.journals), StateNet(s, a);
    TwoKinds(keys, p, net);
    assert net(SubRefundKey(p)) == -net(SubKey(p));
  }

  lemma PayoutAmounts(s: State, a: Account, x: nat)
    requires MoneyInv(s) && x < |s.shop.payouts|
    ensures PayoutsPart(Keys(s.books.journals), StateNet(s, a))(x) == PayoutShare(s, a)(x)
  {
    var keys, net := Keys(s.books.journals), StateNet(s, a);
    assert PayoutOK(s.shop.payouts[x], Key(PayoutRequest, OfPayout(x)) in keys, Key(PayoutPaid, OfPayout(x)) in keys,
                    Key(PayoutRejected, OfPayout(x)) in keys);
    ThreeKinds(keys, x, net);
  }

  lemma JournalsPlaced(s: State, a: Account)
    requires MoneyInv(s)
    ensures forall j | j in s.books.journals :: Placed(s, j.key) && Net(j.entries, a) == StateNet(s, a)(j.key)
  {
    forall j | j in s.books.journals ensures Placed(s, j.key) && Net(j.entries, a) == StateNet(s, a)(j.key) {
      assert j.key in Keys(s.books.journals);
      assert KnownKey(j.key, |s.shop.orders|, |s.shop.payouts|);
      if j.key.source.OfPayment? {
        assert Net(j.entries, a) == PayNet(s.pay)(j.key, a);
      } else {
        assert Net(j.entries, a) == ShopNet(s.shop)(j.key, a);
      }
    }
  }

  lemma PartsAgree(s: State, a: Account)
    requires forall i: nat | i < |s.shop.orders| ::
             OrdersPart(Keys(s.books.journals), StateNet(s, a))(i) == OrderShare(s, a)(i)
    requires forall p: nat | p < |s.pay.payments| ::
             PaymentsPart(Keys(s.books.journals), StateNet(s, a))(p) == PaymentShare(s, a)(p)
    requires forall x: nat | x < |s.shop.payouts| ::
             PayoutsPart(Keys(s.books.journals), StateNet(s, a))(x) == PayoutShare(s, a)(x)
    ensures Total(s, Keys(s.books.journals), StateNet(s, a)) == Expected(s, a)
  {
    var keys, net := Keys(s.books.journals), StateNet(s, a);
    SumToSame(|s.shop.orders|, OrdersPart(keys, net), OrderShare(s, a));
    SumToSame(|s.pay.payments|, PaymentsPart(keys, net), PaymentShare(s, a));
    SumToSame(|s.shop.payouts|, PayoutsPart(keys, net), PayoutShare(s, a));
  }

  lemma Amounts(s: State, a: Account)
    requires MoneyInv(s)
    ensures Total(s, Keys(s.books.journals), StateNet(s, a)) == Expected(s, a)
  {
    var keys, net := Keys(s.books.journals), StateNet(s, a);
    forall i: nat | i < |s.shop.orders| ensures OrdersPart(keys, net)(i) == OrderShare(s, a)(i) {
      OrderAmounts(s, a, i);
    }
    forall p: nat | p < |s.pay.payments| ensures PaymentsPart(keys, net)(p) == PaymentShare(s, a)(p) {
      PaymentAmounts(s, a, p);
    }
    forall x: nat | x < |s.shop.payouts| ensures PayoutsPart(keys, net)(x) == PayoutShare(s, a)(x) {
      PayoutAmounts(s, a, x);
    }
    PartsAgree(s, a);
  }

  /** The ledger is nothing but the business: in every reachable state each account's balance is the
      sum of what every order, every subscription payment and every payout stands for by its status. */
  lemma LedgerMatchesBusiness(s: State, a: Account)
    requires MoneyInv(s)
    ensures Balance(s.books.journals, a) == Expected(s, a)
  {
    JournalsPlaced(s, a);
    BalanceIsTotal(s, s.books.journals, a);
    Amounts(s, a);
  }
}
