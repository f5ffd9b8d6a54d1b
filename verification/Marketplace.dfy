/** The marketplace's tables, updated in place by the order, payment, delivery, payout and refund
    services. Each method is one call with nothing interleaved; its transactions are the steps that
    MarketSteps gives as values. */
module Marketplace {
  import opened Sums
  import opened Ledger
  import opened Commission
  import opened Release
  import opened Invoices
  import opened Shop
  import opened MarketSteps
  import opened MarketLaws
  import opened Billing

  // ---- calls that run several transactions ----

  /** A status change, and the earnings that a delivery books in a second transaction. */
  function MovedAndBooked(m: Market, i: nat, to: OrderStatus, year: nat): Market {
    var moved := Transition(m, i, to);
    if moved.reply == Ok && to == Delivered && m.shop.orders[i].status != to then Deliver(moved.after, i, year).after
    else moved.after
  }

  /** One transition per picked order, in turn. */
  function CancelEach(m: Market, ids: seq<nat>, year: nat): Market {
    if ids == [] then m else MovedAndBooked(CancelEach(m, ids[..|ids| - 1], year), ids[|ids| - 1], Cancelled, year)
  }

  function DeliverEach(m: Market, ids: seq<nat>, year: nat): Market {
    if ids == [] then m else Deliver(DeliverEach(m, ids[..|ids| - 1], year), ids[|ids| - 1], year).after
  }

  const HOUR := 3600

  /** A bKash order nobody paid for: old enough, and with no payment that is completed, under review
      or started within the hour. */
  predicate Unpaid(shop: Shop, i: nat, now: int, maxAge: int) {
    && i < |shop.orders|
    && shop.orders[i].status == PendingPayment && shop.orders[i].payBy == Bkash
    && shop.orders[i].createdAt < now - maxAge
    && forall tx | tx in shop.orderTxs :: tx.order == i ==>
         tx.status !in {Completed, NeedsReview} && !(tx.status == Initiated && tx.createdAt > now - HOUR)
  }

  function UnpaidAt(shop: Shop, now: int, maxAge: int): nat -> bool {
    (i: nat) => Unpaid(shop, i, now, maxAge)
  }

  predicate Unreleased(m: Market, i: nat) {
    i < |m.shop.orders| && m.shop.orders[i].status == Delivered && ReleaseKey(i) !in Keys(m.books.journals)
  }

  function UnreleasedIn(m: Market): nat -> bool {
    (i: nat) => Unreleased(m, i)
  }

  /** The first rows, at most `limit`, that satisfy a condition. */
  function Pick(n: nat, limit: nat, wanted: nat -> bool): (ids: seq<nat>)
    ensures |ids| <= limit && forall i | i in ids :: i < n && wanted(i)
  {
    if n == 0 then [] else
      var before := Pick(n - 1, limit, wanted);
      if wanted(n - 1) && |before| < limit then before + [n - 1] else before
  }

  lemma {:induction false} PickFacts(n: nat, limit: nat, wanted: nat -> bool)
    ensures forall x, y | 0 <= x < y < |Pick(n, limit, wanted)| :: Pick(n, limit, wanted)[x] < Pick(n, limit, wanted)[y]
    ensures |Pick(n, limit, wanted)| < limit ==> forall i: nat | i < n && wanted(i) :: i in Pick(n, limit, wanted)
    ensures forall i: nat, k | k in Pick(n, limit, wanted) && i < k && wanted(i) :: i in Pick(n, limit, wanted)
  {
    if n > 0 {
      var before := Pick(n - 1, limit, wanted);
      PickFacts(n - 1, limit, wanted);
      forall x | 0 <= x < |before| ensures before[x] < n - 1 {
        assert before[x] in before;
      }
    }
  }

  function ExecuteOrderPayment(m: Market, user: nat, x: nat, execute: Answer, query: Answer, year: nat): Outcome {
    if x >= |m.shop.orderTxs| then Outcome(m, NotFound) else
      var tx := m.shop.orderTxs[x];
      if tx.order >= |m.shop.orders| then Outcome(m, NotFound)
      else if m.shop.orders[tx.order].buyer != user then Outcome(m, Forbidden)
      else if tx.status == Completed then Outcome(m, Ok)
      else if tx.status == NeedsReview then Outcome(m, AmountMismatch)
      else match Verdict(execute, query)
           case Unreachable => Outcome(m, GatewayError)
           case NotPaid => Outcome(CloseOrderPayment(m, x, Failed), PaymentNotCompleted)
           case PaidInFull(amount) => SettleOrderPayment(m, x, amount, year)
  }

  datatype Stats = Stats(checked: nat, recovered: nat, cancelled: nat, errors: nat)

  /** A reconciliation pass so far. */
  datatype Pass = Pass(market: Market, stats: Stats)

  predicate Stale(txs: seq<OrderTx>, x: nat, cutoff: int) {
    x < |txs| && txs[x].status == Initiated && txs[x].createdAt < cutoff
  }

  function StaleIn(txs: seq<OrderTx>, cutoff: int): nat -> bool {
    (x: nat) => Stale(txs, x, cutoff)
  }

  /** What the pass does with one picked row, given bKash's answer. */
  function Reconciled(m: Market, x: nat, overdue: bool, answer: Answer, year: nat): Outcome {
    match answer
    case Unreachable => Outcome(m, GatewayError)
    case PaidInFull(amount) => SettleOrderPayment(m, x, amount, year)
    case NotPaid => Outcome(if overdue then CloseOrderPayment(m, x, Abandoned) else m, PaymentNotCompleted)
  }

  function Tallied(s: Stats, overdue: bool, answer: Answer, reply: Reply): Stats {
    match answer
    case Unreachable => s.(checked := s.checked + 1, errors := s.errors + 1)
    case PaidInFull(_) =>
      if reply == Ok then s.(checked := s.checked + 1, recovered := s.recovered + 1)
      else s.(checked := s.checked + 1, errors := s.errors + 1)
    case NotPaid => s.(checked := s.checked + 1, cancelled := s.cancelled + if overdue then 1 else 0)
  }

  function ReconcileEach(m: Market, picked: seq<nat>, oldest: int, answers: nat -> Answer, year: nat): Pass
  {
    if picked == [] then Pass(m, Stats(0, 0, 0, 0)) else
      var before := ReconcileEach(m, picked[..|picked| - 1], oldest, answers, year);
      var x := picked[|picked| - 1];
      var overdue := x < |m.shop.orderTxs| && m.shop.orderTxs[x].createdAt < oldest;
      var o := Reconciled(before.market, x, overdue, answers(x), year);
      Pass(o.after, Tallied(before.stats, overdue, answers(x), o.reply))
  }

  // ---- lemmas about the loops ----

  lemma {:induction false} ShortStays(products: seq<Product>, items: seq<Item>, k: nat)
    requires k < |items| && FirstShort(products, items[..k + 1]) == Some(k)
    ensures FirstShort(products, items) == Some(k)
  {
    if k + 1 == |items| {
      assert items[..k + 1] == items;
    } else {
      assert items[..|items| - 1][..k + 1] == items[..k + 1];
      ShortStays(products, items[..|items| - 1], k);
    }
  }

  lemma TakenStep(products: seq<Product>, items: seq<Item>, k: nat)
    requires k < |items|
    ensures forall p: nat :: Demand(items[..k + 1], p) ==
                             Demand(items[..k], p) + if items[k].product == p then items[k].quantity else 0
    ensures items[..k + 1][..k] == items[..k]
  {
    assert items[..k + 1] == items[..k] + [items[k]];
    forall p: nat
      ensures Demand(items[..k + 1], p) ==
              Demand(items[..k], p) + if items[k].product == p then items[k].quantity else 0
    {
      DemandPush(items[..k], items[k], p);
    }
  }

  function Less(p: Product, quantity: int): Product {
    Product(p.stock - quantity, p.published)
  }

  /** Serving line k after the lines before it: it fits if the shelf still has enough, and then the
      shelf is what the longer cart leaves; if not, the cart stops there. */
  lemma ServeLine(products: seq<Product>, items: seq<Item>, k: nat)
    requires k < |items| && FirstShort(products, items[..k]) == None
    ensures var p, shelf := items[k].product, Taken(products, items[..k]);
            if p < |shelf| && shelf[p].published && shelf[p].stock >= items[k].quantity
            then FirstShort(products, items[..k + 1]) == None
                 && Taken(products, items[..k + 1]) == shelf[p := Less(shelf[p], items[k].quantity)]
            else FirstShort(products, items) == Some(k)
                 && ShortError(products, items, k) ==
                    if p < |shelf| then StockError(k, shelf[p].stock, !shelf[p].published) else StockError(k, 0, true)
  {
    TakenStep(products, items, k);
    var p, shelf := items[k].product, Taken(products, items[..k]);
    if !(p < |shelf| && shelf[p].published && shelf[p].stock >= items[k].quantity) {
      ShortStays(products, items, k);
    }
  }

  // ---- what the jobs achieve ----

  predicate AllDistinct(ids: seq<nat>) {
    forall x, y | 0 <= x < y < |ids| :: ids[x] != ids[y]
  }

  lemma SplitLast(ids: seq<nat>)
    requires ids != []
    ensures var last, rest := ids[|ids| - 1], ids[..|ids| - 1];
            && (forall i :: i in ids <==> i == last || i in rest)
            && (AllDistinct(ids) ==> AllDistinct(rest) && last !in rest)
  {
  }

  lemma CancelOne(m: Market, i: nat, year: nat)
    requires i < |m.shop.orders| && m.shop.orders[i].status == PendingPayment
    ensures var after := MovedAndBooked(m, i, Cancelled, year);
            && after.books == m.books && |after.shop.orders| == |m.shop.orders|
            && after.shop.orders[i].status == Cancelled
            && (forall k | 0 <= k < |m.shop.orders| && k != i :: after.shop.orders[k] == m.shop.orders[k])
  {
  }

  /** Picked first and cancelled later, with nothing in between: the picked orders end cancelled, no
      other order is touched, and no money moves. */
  lemma {:induction false} CancelEachFacts(m: Market, ids: seq<nat>, year: nat)
    requires AllDistinct(ids)
    requires forall i | i in ids :: i < |m.shop.orders| && m.shop.orders[i].status == PendingPayment
    ensures var after := CancelEach(m, ids, year);
            && after.books == m.books && |after.shop.orders| == |m.shop.orders|
            && (forall i | i in ids :: after.shop.orders[i].status == Cancelled)
            && (forall i | 0 <= i < |m.shop.orders| && i !in ids :: after.shop.orders[i] == m.shop.orders[i])
  {
    if ids != [] {
      SplitLast(ids);
      CancelEachFacts(m, ids[..|ids| - 1], year);
      CancelOne(CancelEach(m, ids[..|ids| - 1], year), ids[|ids| - 1], year);
    }
  }

  lemma CancelNext(m: Market, ids: seq<nat>, k: nat, now: int, maxAge: int, year: nat)
    requires AllDistinct(ids) && k < |ids| && forall i | i in ids :: Unpaid(m.shop, i, now, maxAge)
    ensures var before := CancelEach(m, ids[..k], year);
            && MarketSteps.Transition(before, ids[k], Cancelled).reply == Ok
            && CancelEach(m, ids[..k + 1], year) == MovedAndBooked(before, ids[k], Cancelled, year)
  {
    assert ids[..k + 1][..|ids[..k + 1]| - 1] == ids[..k];
    StillUnpaid(m, ids, k, now, maxAge, year);
  }

  lemma StillUnpaid(m: Market, ids: seq<nat>, k: nat, now: int, maxAge: int, year: nat)
    requires AllDistinct(ids) && k < |ids| && forall i | i in ids :: Unpaid(m.shop, i, now, maxAge)
    ensures var shop := CancelEach(m, ids[..k], year).shop;
            ids[k] < |shop.orders| && shop.orders[ids[k]].status == PendingPayment
  {
    forall i | i in ids[..k] ensures Unpaid(m.shop, i, now, maxAge) {
      assert i in ids;
    }
    CancelEachFacts(m, ids[..k], year);
    assert ids[k] in ids && ids[k] !in ids[..k];
  }

  function BookableIn(shop: Shop): nat -> int {
    (i: nat) => if i < |shop.orders| && Bookable(shop, shop.orders[i]) then 1 else 0
  }

  lemma NextDelivers(m: Market, ids: seq<nat>, k: nat, year: nat)
    requires MarketInv(m) && k < |ids| && forall i | i in ids :: Unreleased(m, i)
    ensures Deliver(DeliverEach(m, ids[..k], year), ids[k], year).reply == Ok <==> BookableIn(m.shop)(ids[k]) == 1
  {
    assert ids[k] in ids && forall i | i in ids[..k] :: i in ids;
    DeliverEachFacts(m, ids[..k], year);
    DeliverKeepsInv(DeliverEach(m, ids[..k], year), ids[k], year);
  }

  lemma DeliverOne(m: Market, i: nat, year: nat)
    requires MarketInv(m) && i < |m.shop.orders| && m.shop.orders[i].status == Delivered
    ensures var after := Deliver(m, i, year).after;
            && MarketInv(after) && after.shop == m.shop
            && Keys(m.books.journals) <= Keys(after.books.journals)
            && (forall k: nat ::
                  ReleaseKey(k) in Keys(after.books.journals) <==>
                  ReleaseKey(k) in Keys(m.books.journals) || (k == i && Bookable(m.shop, m.shop.orders[i])))
  {
    DeliverKeepsInv(m, i, year);
  }

  /** Of the picked orders exactly the bookable ones end released. */
  lemma {:induction false} DeliverEachFacts(m: Market, ids: seq<nat>, year: nat)
    requires MarketInv(m)
    requires forall i | i in ids :: i < |m.shop.orders| && m.shop.orders[i].status == Delivered
    ensures var after := DeliverEach(m, ids, year);
            && MarketInv(after) && after.shop == m.shop
            && Keys(m.books.journals) <= Keys(after.books.journals)
            && (forall i: nat ::
                  ReleaseKey(i) in Keys(after.books.journals) <==>
                  ReleaseKey(i) in Keys(m.books.journals) || (i in ids && Bookable(m.shop, m.shop.orders[i])))
  {
    if ids != [] {
      var rest, last := ids[..|ids| - 1], ids[|ids| - 1];
      SplitLast(ids);
      assert last in ids;
      DeliverEachFacts(m, rest, year);
      DeliverOne(DeliverEach(m, rest, year), last, year);
    }
  }

  /** A sweep that finds fewer orders than its limit leaves exactly those delivered orders unreleased
      that the ledger refuses. */
  lemma {:induction false} SweepReleasesAll(m: Market, limit: nat, year: nat, i: nat)
    requires MarketInv(m) && |Pick(|m.shop.orders|, limit, UnreleasedIn(m))| < limit
    ensures Unreleased(DeliverEach(m, Pick(|m.shop.orders|, limit, UnreleasedIn(m)), year), i) <==>
            Unreleased(m, i) && !Bookable(m.shop, m.shop.orders[i])
  {
    PickFacts(|m.shop.orders|, limit, UnreleasedIn(m));
    DeliverEachFacts(m, Pick(|m.shop.orders|, limit, UnreleasedIn(m)), year);
  }

  /** bKash confirmed the row for the amount it charges, or for none it could read. */
  predicate Confirms(tx: OrderTx, answer: Answer) {
    answer.PaidInFull? && (answer.amount.Some? ==> answer.amount.value == tx.amount)
  }

  /** The status a picked row ends with, given bKash's answer about it and whether its order still waits
      for payment. A matching answer for a negative amount is refused by the ledger, and the row waits on. */
  function StatusAfterPass(tx: OrderTx, oldest: int, answer: Answer, waits: bool): TxStatus {
    match answer
    case Unreachable => Initiated
    case NotPaid => if tx.createdAt < oldest then Abandoned else Initiated
    case PaidInFull(_) =>
      if !Confirms(tx, answer) || !waits then NeedsReview else if tx.amount < 0 then Initiated else Completed
  }

  predicate Waits(shop: Shop, i: nat) {
    i < |shop.orders| && shop.orders[i].status == PendingPayment
  }

  lemma {:induction false} ReconciledRow(m: Market, x: nat, oldest: int, answer: Answer, year: nat)
    requires MarketInv(m) && x < |m.shop.orderTxs| && m.shop.orderTxs[x].status == Initiated
    ensures var tx := m.shop.orderTxs[x];
            var after := Reconciled(m, x, tx.createdAt < oldest, answer, year).after;
            && MarketInv(after)
            && after.shop.orderTxs ==
               m.shop.orderTxs[x := tx.(status := StatusAfterPass(tx, oldest, answer, Waits(m.shop, tx.order)))]
            && (forall i: nat :: Waits(after.shop, i) <==>
                                 Waits(m.shop, i) && !(tx.order == i && Confirms(tx, answer) && tx.amount >= 0))
  {
    assert TxOK(m.shop.orderTxs[x], Keys(m.books.journals), m.shop.orders);
    match answer
    case PaidInFull(amount) =>
      SettleKeepsInv(m, x, amount, year);
      RecordFacts(m, m.shop.orderTxs[x].order, year);
    case NotPaid => CloseKeepsInv(m, x, Abandoned);
    case Unreachable =>
  }

  /** Some picked payment of the order is confirmed as it should be. */
  predicate PaidAmong(txs: seq<OrderTx>, picked: seq<nat>, answers: nat -> Answer, i: nat)
  {
    exists x | x in picked && x < |txs| :: txs[x].order == i && Confirms(txs[x], answers(x)) && txs[x].amount >= 0
  }

  lemma PaidAmongPush(txs: seq<OrderTx>, picked: seq<nat>, answers: nat -> Answer)
    requires picked != [] && picked[|picked| - 1] < |txs|
    ensures var x := picked[|picked| - 1];
            forall i :: PaidAmong(txs, picked, answers, i) <==>
                        PaidAmong(txs, picked[..|picked| - 1], answers, i)
                        || (txs[x].order == i && Confirms(txs[x], answers(x)) && txs[x].amount >= 0)
  {
    SplitLast(picked);
  }

  /** Row k of the picked ones, decided when the rows before it have been. */
  predicate DecidedRow(shop: Shop, picked: seq<nat>, k: nat, oldest: int, answers: nat -> Answer, after: OrderTx)
    requires k < |picked| && picked[k] < |shop.orderTxs|
  {
    var tx := shop.orderTxs[picked[k]];
    var waits := Waits(shop, tx.order) && !PaidAmong(shop.orderTxs, picked[..k], answers, tx.order);
    after == tx.(status := StatusAfterPass(tx, oldest, answers(picked[k]), waits))
  }

  ghost predicate PassDecided(shop: Shop, picked: seq<nat>, oldest: int, answers: nat -> Answer, after: Shop)
    requires forall k | 0 <= k < |picked| :: picked[k] < |shop.orderTxs|
  {
    && |after.orderTxs| == |shop.orderTxs|
    && (forall k | 0 <= k < |picked| :: DecidedRow(shop, picked, k, oldest, answers, after.orderTxs[picked[k]]))
    && (forall x | 0 <= x < |shop.orderTxs| && x !in picked :: after.orderTxs[x] == shop.orderTxs[x])
    && (forall i: nat :: Waits(after, i) <==> Waits(shop, i) && !PaidAmong(shop.orderTxs, picked, answers, i))
  }

  lemma PassStep(shop: Shop, picked: seq<nat>, oldest: int, answers: nat -> Answer, mid: Shop, after: Shop)
    requires picked != [] && AllDistinct(picked) && forall k | 0 <= k < |picked| :: picked[k] < |shop.orderTxs|
    requires PassDecided(shop, picked[..|picked| - 1], oldest, answers, mid)
    requires var x := picked[|picked| - 1];
             var tx := mid.orderTxs[x];
             && after.orderTxs ==
                mid.orderTxs[x := tx.(status := StatusAfterPass(tx, oldest, answers(x), Waits(mid, tx.order)))]
             && (forall i: nat :: Waits(after, i) <==>
                                  Waits(mid, i) && !(tx.order == i && Confirms(tx, answers(x)) && tx.amount >= 0))
    ensures PassDecided(shop, picked, oldest, answers, after)
  {
    var rest, x := picked[..|picked| - 1], picked[|picked| - 1];
    SplitLast(picked);
    PaidAmongPush(shop.orderTxs, picked, answers);
    forall k | 0 <= k < |rest| ensures rest[..k] == picked[..k] && rest[k] != x {
      assert rest[k] in rest;
    }
    forall k | 0 <= k < |picked| ensures DecidedRow(shop, picked, k, oldest, answers, after.orderTxs[picked[k]]) {
      assert k < |rest| ==> DecidedRow(shop, rest, k, oldest, answers, mid.orderTxs[rest[k]]);
    }
  }

  /** A pass decides every picked payment as bKash answered for it, and touches no other. Of the
      confirmed ones with the right amount the first of a waiting order completes, and those whose order
      had moved on before the pass, or was paid by an earlier row of it, are flagged. */
  lemma {:induction false} ReconcileDecides(m: Market, picked: seq<nat>, oldest: int, answers: nat -> Answer, year: nat)
    requires MarketInv(m) && AllDistinct(picked)
    requires forall k | 0 <= k < |picked| ::
               picked[k] < |m.shop.orderTxs| && m.shop.orderTxs[picked[k]].status == Initiated
    ensures var after := ReconcileEach(m, picked, oldest, answers, year).market;
            MarketInv(after) && PassDecided(m.shop, picked, oldest, answers, after.shop)
  {
    if picked != [] {
      var rest, x := picked[..|picked| - 1], picked[|picked| - 1];
      assert forall k | 0 <= k < |rest| :: rest[k] == picked[k];
      SplitLast(picked);
      ReconcileDecides(m, rest, oldest, answers, year);
      var mid := ReconcileEach(m, rest, oldest, answers, year).market;
      ReconciledRow(mid, x, oldest, answers(x), year);
      PassStep(m.shop, picked, oldest, answers, mid.shop, ReconcileEach(m, picked, oldest, answers, year).market.shop);
    }
  }

  class MarketTables {
    const billing: BillingTables
    var merchants: seq<Merchant>
    var products: seq<Product>
    var orders: seq<Order>
    var orderTxs: seq<OrderTx>
    var payouts: seq<Payout>
    var refunded: set<nat>
    var reserving: map<nat, int>
    /** What bKash knows of each session, and has said. */
    var sessions: seq<Session>
    var answers: set<(nat, Option<int>)>

    constructor (billing: BillingTables, shop: Shop)
      ensures this.billing == billing
      ensures Value() == Market(billing.Value(), shop)
    {
      this.billing := billing;
      merchants, products, orders, orderTxs := shop.merchants, shop.products, shop.orders, shop.orderTxs;
      payouts, refunded, reserving := shop.payouts, shop.refunded, shop.reserving;
      sessions, answers := shop.sessions, shop.answers;
    }

    function ShopValue(): Shop
      reads this
    {
      Shop(merchants, products, orders, orderTxs, payouts, refunded, reserving, sessions, answers)
    }

    function Value(): Market
      reads this, billing
    {
      Market(billing.Value(), ShopValue())
    }

    method Rollback(to: Market)
      modifies this, billing
      ensures Value() == to
    {
      billing.Rollback(to.books);
      merchants, products, orders, orderTxs := to.shop.merchants, to.shop.products, to.shop.orders, to.shop.orderTxs;
      payouts, refunded, reserving := to.shop.payouts, to.shop.refunded, to.shop.reserving;
      sessions, answers := to.shop.sessions, to.shop.answers;
    }

    // ---- orders and stock ----

    /** The conditional update: a published product with enough stock gives up its units. */
    method TakeUnits(p: nat, quantity: int) returns (taken: bool)
      modifies this`products
      ensures taken == (p < |old(products)| && old(products)[p].published && old(products)[p].stock >= quantity)
      ensures products == if taken then old(products)[p := Less(old(products)[p], quantity)] else old(products)
    {
      taken := p < |products| && products[p].published && products[p].stock >= quantity;
      if taken {
        products := products[p := Product(products[p].stock - quantity, products[p].published)];
      }
    }

    /** Takes each line's units with a conditional update; the first shortfall undoes them all. */
    method PlaceOrder(draft: Order) returns (reply: Reply)
      modifies this
      ensures Value() == MarketSteps.PlaceOrder(old(Value()), draft).after
      ensures reply == MarketSteps.PlaceOrder(old(Value()), draft).reply
      ensures reply != Ok ==> Value() == old(Value())
    {
      var before, items := products, draft.items;
      assert items[..0] == [];
      for k := 0 to |items|
        invariant products == Taken(before, items[..k]) && FirstShort(before, items[..k]) == None
        invariant ShopValue() == old(ShopValue()).(products := products)
      {
        var p := items[k].product;
        ServeLine(before, items, k);
        var taken := TakeUnits(p, items[k].quantity);
        if !taken {
          reply := OutOfStock(if p < |products| then StockError(k, products[p].stock, !products[p].published)
                              else StockError(k, 0, true));
          products := before;
          return;
        }
      }
      assert items[..|items|] == items;
      orders := orders + [draft.(events := [draft.status])];
      reply := Ok;
    }

    method RestockOrder(i: nat)
      requires i < |orders|
      modifies this
      ensures ShopValue() == old(ShopValue()).(products := Restocked(old(products), old(orders)[i].items))
    {
      var before, items := products, orders[i].items;
      assert items[..0] == [];
      for k := 0 to |items|
        invariant products == Restocked(before, items[..k])
        invariant ShopValue() == old(ShopValue()).(products := products)
      {
        var p := items[k].product;
        TakenStep(before, items, k);
        if p < |products| {
          products := products[p := Product(products[p].stock + items[k].quantity, products[p].published)];
        }
      }
      assert items[..|items|] == items;
    }

    /** Moves an order in one transaction; a delivery then books its earnings in another. */
    method Transition(i: nat, to: OrderStatus, year: nat) returns (reply: Reply)
      modifies this, billing
      ensures Value() == MovedAndBooked(old(Value()), i, to, year)
      ensures reply == MarketSteps.Transition(old(Value()), i, to).reply
    {
      if i >= |orders| {
        return NotFound;
      }
      var order := orders[i];
      if order.status == to {
        return Ok;
      }
      if !CanTransition(order.status, to) {
        return InvalidTransition;
      }
      orders := orders[i := order.(status := to, events := order.events + [to])];
      if to == Cancelled {
        RestockOrder(i);
      }
      if to == Delivered {
        var _ := OnOrderDelivered(i, year);
      }
      reply := Ok;
    }

    method CancelByBuyer(user: nat, i: nat) returns (reply: Reply)
      modifies this
      ensures Value() == MarketSteps.CancelByBuyer(old(Value()), user, i).after
      ensures reply == MarketSteps.CancelByBuyer(old(Value()), user, i).reply
    {
      if i >= |orders| {
        return NotFound;
      }
      var order := orders[i];
      if order.buyer != user {
        return Forbidden;
      }
      if order.status == Cancelled {
        return Ok;
      }
      var cod := order.payBy == CashOnDelivery && order.status == Processing;
      if order.status != PendingPayment && !cod {
        return NotCancellable;
      }
      orders := orders[i := order.(status := Cancelled, events := order.events + [Cancelled])];
      RestockOrder(i);
      reply := Ok;
    }

    /** Picks the unpaid orders first and cancels them after, one transaction each. */
    method ExpireUnpaid(now: int, maxAge: int, batch: nat, year: nat) returns (n: nat, ghost picked: seq<nat>)
      modifies this, billing
      ensures picked == Pick(|old(orders)|, batch, UnpaidAt(old(ShopValue()), now, maxAge))
      ensures Value() == CancelEach(old(Value()), picked, year)
      ensures n == |picked|
    {
      var shop := ShopValue();
      var ids := Pick(|orders|, batch, UnpaidAt(shop, now, maxAge));
      PickFacts(|orders|, batch, UnpaidAt(shop, now, maxAge));
      picked := ids;
      n := 0;
      ghost var market := Value();
      for k := 0 to |ids|
        invariant Value() == CancelEach(market, ids[..k], year) && n == k
      {
        CancelNext(market, ids, k, now, maxAge, year);
        var reply := Transition(ids[k], Cancelled, year);
        if reply == Ok {
          n := n + 1;
        }
      }
      assert ids[..|ids|] == ids;
    }

    // ---- delivery ----

    /** The payment journal of a bKash order is backfilled; a cash order gets its invoice now. */
    method BookPayment(i: nat, order: Order, isBkash: bool, year: nat) returns (ok: bool)
      requires isBkash == (order.payBy == Bkash)
      modifies billing
      ensures ok == BooksBeforeRelease(old(billing.Value()), i, order, year).Some?
      ensures billing.Value() ==
              if ok then BooksBeforeRelease(old(billing.Value()), i, order, year).value else old(billing.Value())
    {
      ok := true;
      if isBkash {
        if PayKey(i) !in Keys(billing.journals) {
          ok := billing.RecordOrderPayment(i, order, year);
        }
      } else {
        billing.IssueOrderInvoice(i, order, year);
      }
    }

    method OnOrderDelivered(i: nat, year: nat) returns (reply: Reply)
      modifies billing
      ensures Value() == Deliver(old(Value()), i, year).after
      ensures reply == Deliver(old(Value()), i, year).reply
    {
      var before := billing.Value();
      if i >= |orders| {
        return NotFound;
      }
      var order := orders[i];
      if order.status != Delivered {
        return NotDelivered;
      }
      if ReleaseKey(i) in Keys(billing.journals) {
        return Ok;
      }
      var isBkash := order.payBy == Bkash;
      var booked := BookPayment(i, order, isBkash, year);
      if !booked {
        return LedgerRefused;
      }
      var lines := BuildReleaseLines(isBkash, Platform(merchants), order.items);
      var result := billing.PostJournal(ReleaseKey(i), lines);
      if result == InvalidLine || result == Unbalanced {
        billing.Rollback(before);
        return LedgerRefused;
      }
      reply := Ok;
    }

    /** Books the earnings of delivered orders that have none yet. */
    method ReleaseDeliveredOrders(limit: nat, year: nat) returns (done: nat, ghost picked: seq<nat>)
      modifies billing
      ensures picked == Pick(|orders|, limit, UnreleasedIn(old(Value())))
      ensures Value() == DeliverEach(old(Value()), picked, year)
      ensures MarketInv(old(Value())) ==> done == SumBy(picked, BookableIn(ShopValue()))
    {
      var market := Value();
      var ids := Pick(|orders|, limit, UnreleasedIn(market));
      picked := ids;
      done := 0;
      for k := 0 to |ids|
        invariant Value() == DeliverEach(market, ids[..k], year)
        invariant MarketInv(market) ==> done == SumBy(ids[..k], BookableIn(market.shop))
      {
        assert ids[..k + 1][..|ids[..k + 1]| - 1] == ids[..k];
        assert ids[k] in ids;
        if MarketInv(market) {
          NextDelivers(market, ids, k, year);
        }
        var reply := OnOrderDelivered(ids[k], year);
        if reply == Ok {
          done := done + 1;
        }
      }
      assert ids[..|ids|] == ids;
    }

    // ---- bKash payments of orders ----

    /** Opens a session for the order's total; `session` is false when bKash gives none. */
    method CreatePayment(user: nat, i: nat, session: bool, now: int) returns (reply: Reply)
      modifies this
      ensures reply == Ok ==> Value() == OpenOrderPayment(old(Value()), i, now) && |orderTxs| == |old(orderTxs)| + 1
      ensures reply != Ok ==> Value() == old(Value())
      ensures reply == (if i >= |old(orders)| then NotFound
                        else if old(orders)[i].buyer != user then Forbidden
                        else if old(orders)[i].status != PendingPayment || old(orders)[i].payBy != Bkash then NotPayable
                        else if !session then GatewayError
                        else Ok)
    {
      if i >= |orders| {
        return NotFound;
      }
      var order := orders[i];
      if order.buyer != user {
        return Forbidden;
      }
      if order.status != PendingPayment || order.payBy != Bkash {
        return NotPayable;
      }
      if !session {
        return GatewayError;
      }
      orderTxs := orderTxs + [OrderTx(i, order.total, Initiated, now)];
      sessions := sessions + [NotYetPaid];
      reply := Ok;
    }

    /** Execute at bKash; when that shows no success, bKash's own record decides. */
    method ExecutePayment(user: nat, x: nat, execute: Answer, query: Answer, year: nat) returns (reply: Reply)
      modifies this, billing
      ensures Value() == ExecuteOrderPayment(old(Value()), user, x, execute, query, year).after
      ensures reply == ExecuteOrderPayment(old(Value()), user, x, execute, query, year).reply
    {
      if x >= |orderTxs| || orderTxs[x].order >= |orders| {
        return NotFound;
      }
      var tx := orderTxs[x];
      if orders[tx.order].buyer != user {
        return Forbidden;
      }
      if tx.status == Completed {
        return Ok;
      }
      if tx.status == NeedsReview {
        return AmountMismatch;
      }
      var result := execute;
      if !result.PaidInFull? && query.PaidInFull? {
        result := query;
      }
      match result
      case Unreachable => return GatewayError;
      case NotPaid =>
        MarkTerminal(x, Failed);
        return PaymentNotCompleted;
      case PaidInFull(amount) =>
        reply := Fulfil(x, amount, year);
    }

    /** Marks the order paid, completes the payment row and books the money, or flags the row. */
    method Fulfil(x: nat, amount: Option<int>, year: nat) returns (reply: Reply)
      modifies this, billing
      ensures Value() == SettleOrderPayment(old(Value()), x, amount, year).after
      ensures reply == SettleOrderPayment(old(Value()), x, amount, year).reply
    {
      var before := Value();
      if x >= |orderTxs| {
        return NotFound;
      }
      var tx := orderTxs[x];
      if tx.status == Completed {
        return Ok;
      }
      if amount.Some? && amount.value != tx.amount {
        orderTxs := orderTxs[x := tx.(status := NeedsReview)];
        return AmountMismatch;
      }
      if tx.order >= |orders| {
        return NotFound;
      }
      var order := orders[tx.order];
      if order.status != PendingPayment {
        orderTxs := orderTxs[x := tx.(status := NeedsReview)];
        return NotPayable;
      }
      orders := orders[tx.order := order.(status := Paid, events := order.events + [Paid])];
      orderTxs := orderTxs[x := tx.(status := Completed)];
      var booked := billing.RecordOrderPayment(tx.order, order, year);
      if !booked {
        Rollback(before);
        return LedgerRefused;
      }
      reply := Ok;
    }

    /** Only a row that is still initiated is closed. */
    method MarkTerminal(x: nat, status: TxStatus)
      modifies this
      ensures Value() == CloseOrderPayment(old(Value()), x, status)
    {
      if x < |orderTxs| && orderTxs[x].status == Initiated {
        orderTxs := orderTxs[x := orderTxs[x].(status := status)];
      }
    }

    method ReconcilePending(now: int, minAge: int, cancelAfter: int, batch: nat, answers: nat -> Answer, year: nat)
      returns (stats: Stats, ghost picked: seq<nat>)
      modifies this, billing
      ensures picked == Pick(|old(orderTxs)|, batch, StaleIn(old(orderTxs), now - minAge))
      ensures Pass(Value(), stats) == ReconcileEach(old(Value()), picked, now - cancelAfter, answers, year)
    {
      var rows, start := orderTxs, Value();
      var pending := Pick(|rows|, batch, StaleIn(rows, now - minAge));
      picked := pending;
      stats := Stats(0, 0, 0, 0);
      for k := 0 to |pending|
        invariant Pass(Value(), stats) == ReconcileEach(start, pending[..k], now - cancelAfter, answers, year)
      {
        var x := pending[k];
        assert x in pending;
        assert pending[..k + 1][..|pending[..k + 1]| - 1] == pending[..k];
        stats := stats.(checked := stats.checked + 1);
        match answers(x)
        case Unreachable => stats := stats.(errors := stats.errors + 1);
        case PaidInFull(amount) =>
          var reply := Fulfil(x, amount, year);
          if reply != Ok {
            stats := stats.(errors := stats.errors + 1);
          } else {
            stats := stats.(recovered := stats.recovered + 1);
          }
        case NotPaid =>
          if rows[x].createdAt < now - cancelAfter {
            MarkTerminal(x, Abandoned);
            stats := stats.(cancelled := stats.cancelled + 1);
          }
      }
      assert pending[..|pending|] == pending;
    }

    // ---- payouts ----

    /** Holds the merchant's row from the balance check to the commit. */
    method RequestPayout(id: nat, amount: int) returns (reply: Reply)
      modifies this, billing
      ensures Value() == MarketSteps.RequestPayout(old(Value()), id, amount).after
      ensures reply == MarketSteps.RequestPayout(old(Value()), id, amount).reply
    {
      if amount <= 0 {
        return InvalidAmount;
      }
      if amount < MIN_PAYOUT {
        return BelowMinimum;
      }
      if id >= |merchants| {
        return NotFound;
      }
      if !merchants[id].approved || merchants[id].isPlatform {
        return NotApproved;
      }
      if !merchants[id].hasPayoutAccount {
        return NoPayoutAccount;
      }
      if amount > Balance(billing.journals, MerchantAccount(id)) {
        return InsufficientBalance;
      }
      var before, k := Value(), |payouts|;
      payouts := payouts + [Payout(id, amount, Requested)];
      var lines := [Line(MerchantAccount(id), amount, 0), Line(PayoutsPending, 0, amount)];
      var result := billing.PostJournal(Key(PayoutRequest, OfPayout(k)), lines);
      if result == InvalidLine || result == Unbalanced {
        Rollback(before);
        return LedgerRefused;
      }
      reply := Ok;
    }

    method SettlePayout(k: nat, to: PayoutStatus) returns (reply: Reply)
      modifies this, billing
      ensures Value() == MarketSteps.SettlePayout(old(Value()), k, to).after
      ensures reply == MarketSteps.SettlePayout(old(Value()), k, to).reply
    {
      var before := Value();
      if k >= |payouts| {
        return NotFound;
      }
      var p := payouts[k];
      if p.status != Requested {
        return NotRequested;
      }
      payouts := payouts[k := p.(status := to)];
      var kind, lines := PayoutPaid, [Line(PayoutsPending, p.amount, 0), Line(CashOut, 0, p.amount)];
      if to != Transferred {
        kind, lines := PayoutRejected,
          [Line(PayoutsPending, p.amount, 0), Line(MerchantAccount(p.merchant), 0, p.amount)];
      }
      var result := billing.PostJournal(Key(kind, OfPayout(k)), lines);
      if result == InvalidLine || result == Unbalanced {
        Rollback(before);
        return LedgerRefused;
      }
      reply := Ok;
    }

    // ---- refunds ----

    /** Reverses the release and the payment, voids the invoice, cancels and restocks the order. The
        refund row comes last: when it exists already everything before it is undone. */
    method RefundOrder(i: nat, reference: string) returns (reply: Reply)
      modifies this, billing
      ensures Value() == MarketSteps.RefundOrder(old(Value()), i, reference).after
      ensures reply == MarketSteps.RefundOrder(old(Value()), i, reference).reply
    {
      var before := Value();
      if Blank(reference) {
        return NotRefundable;
      }
      if i >= |orders| {
        return NotFound;
      }
      var order := orders[i];
      if order.payBy != Bkash {
        return NotRefundable;
      }
      var newest := NewestSettled(orderTxs, i);
      if newest.None? {
        return NotRefundable;
      }
      var x := newest.value;
      if orderTxs[x].status == Refunded {
        return AlreadyRefunded;
      }
      var reversed := billing.ReverseJournals(OfOrder(i), OrderKinds());
      if !reversed {
        Rollback(before);
        return LedgerRefused;
      }
      billing.VoidInvoice(OfOrder(i));
      orders := orders[i := order.(status := Cancelled, events := order.events + [Cancelled])];
      if order.status != Delivered {
        RestockOrder(i);
      }
      orderTxs := orderTxs[x := orderTxs[x].(status := Refunded)];
      if i in refunded {
        Rollback(before);
        return DuplicateRefund;
      }
      refunded := refunded + {i};
      reply := Ok;
    }
  }
}
