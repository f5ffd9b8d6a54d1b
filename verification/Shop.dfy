/** Marketplace rows: orders, their status machine, and product stock. */
module Shop {
  import opened Sums
  import opened Commission
  import opened Release

  datatype OrderStatus = PendingPayment | Paid | Processing | Shipped | Delivered | Cancelled

  datatype PaymentMethod = Bkash | CashOnDelivery

  /** Shared by both kinds of bKash payment rows. */
  datatype TxStatus = Initiated | Completed | Failed | Abandoned | NeedsReview | Refunded

  datatype PayoutStatus = Requested | Transferred | Rejected

  datatype Merchant = Merchant(isPlatform: bool, approved: bool, hasPayoutAccount: bool)

  datatype Product = Product(stock: int, published: bool)

  datatype Order = Order(buyer: nat, items: seq<Item>, delivery: int, total: int, status: OrderStatus,
                         payBy: PaymentMethod, createdAt: int, events: seq<OrderStatus>)

  datatype OrderTx = OrderTx(order: nat, amount: int, status: TxStatus, createdAt: int)

  datatype Payout = Payout(merchant: nat, amount: int, status: PayoutStatus)

  /** What bKash knows of a payment session. MoneyTaken is final. */
  datatype Session = NotYetPaid | MoneyTaken(amount: Option<int>)

  /** `refunded` holds the order ids of the refund table (its unique source index); `reserving` holds,
      per locked merchant row, the amount of the payout request that passed its balance check.
      `sessions` is what bKash knows of each payment row's session, and `answers` every "Completed" it
      has given, with the amount as it could be read. */
  datatype Shop = Shop(merchants: seq<Merchant>, products: seq<Product>, orders: seq<Order>, orderTxs: seq<OrderTx>,
                       payouts: seq<Payout>, refunded: set<nat>, reserving: map<nat, int>, sessions: seq<Session>,
                       answers: set<(nat, Option<int>)>)

  datatype StockError = StockError(line: nat, available: int, gone: bool)

  datatype Reply =
    | Ok
    | NotFound
    | Forbidden
    | OutOfStock(error: StockError)
    | InvalidTransition
    | NotCancellable
    | NotDelivered
    | NotPayable
    | AmountMismatch
    | PaymentNotCompleted
    | GatewayError
    | LedgerRefused
    | NotRefundable
    | AlreadyRefunded
    | DuplicateRefund
    | InvalidAmount
    | BelowMinimum
    | NotApproved
    | NoPayoutAccount
    | InsufficientBalance
    | NotRequested

  /** What bKash says about a payment, when it answers. */
  datatype Answer = Unreachable | NotPaid | PaidInFull(amount: Option<int>)

  /** The amount bKash reports, if it can be read as a number, to the nearest taka. Dropping the fraction
      takes a negative number up, so a free plan also accepts reports down to -1.5. */
  function PaidAmount(reported: Option<real>): (r: Option<int>)
    ensures r.Some? <==> reported.Some?
    ensures reported.Some? && r.value > 0 ==> r.value as real - 0.5 <= reported.value < r.value as real + 0.5
    ensures reported.Some? && r.value == 0 ==> -1.5 < reported.value < 0.5
    ensures reported.Some? && r.value < 0 ==> r.value as real - 1.5 < reported.value <= r.value as real - 0.5
  {
    if reported.None? then None else Some(Truncate(reported.value + 0.5))
  }

  /** A free plan is paid by every report between -1.5 and 0.5 taka, by -1 for one. */
  lemma NothingIsPaidBy(reported: real)
    ensures PaidAmount(Some(reported)) == Some(0) <==> -1.5 < reported < 0.5
    ensures PaidAmount(Some(-1.0)) == Some(0)
  {
    assert Truncate(-1.0 + 0.5) == 0;
  }

  /** Execute first; when that is no success, the status query has the last word on success. */
  function Verdict(execute: Answer, query: Answer): Answer {
    if execute.PaidInFull? then execute else if query.PaidInFull? then query else execute
  }

  function Platform(merchants: seq<Merchant>): set<nat> {
    set id | 0 <= id < |merchants| && merchants[id].isPlatform
  }

  // ---- the status machine ----

  function Rank(s: OrderStatus): Option<nat> {
    match s
    case PendingPayment => Some(0)
    case Paid => Some(1)
    case Processing => Some(2)
    case Shipped => Some(3)
    case Delivered => Some(4)
    case Cancelled => None
  }

  predicate CanTransition(from: OrderStatus, to: OrderStatus) {
    if from == to || from == Delivered || from == Cancelled then false
    else if to == Cancelled then true
    else Rank(from).Some? && Rank(to).Some? && Rank(to).value > Rank(from).value
  }

  /** Along any chain of allowed moves the order only moves forward, never repeats a status, and
      stops at delivered or cancelled. */
  lemma {:induction false} ChainsMoveForward(path: seq<OrderStatus>)
    requires |path| >= 2
    requires forall i | 0 <= i < |path| - 1 :: CanTransition(path[i], path[i + 1])
    ensures CanTransition(path[0], path[|path| - 1])
    ensures forall i | 0 <= i < |path| - 1 :: path[i] != Delivered && path[i] != Cancelled
    ensures |path| <= 5
  {
    PathLength(path);
    if |path| > 2 {
      var rest := path[1..];
      forall i | 0 <= i < |rest| - 1 ensures CanTransition(rest[i], rest[i + 1]) {
        assert CanTransition(path[i + 1], path[i + 1 + 1]);
      }
      ChainsMoveForward(rest);
    }
  }

  lemma {:induction false} PathLength(path: seq<OrderStatus>)
    requires |path| >= 1
    requires forall i | 0 <= i < |path| - 1 :: CanTransition(path[i], path[i + 1])
    ensures var first := path[0];
            |path| <= match Rank(first) case Some(r) => 5 - r case None => 1
  {
    if |path| > 1 {
      var rest := path[1..];
      forall i | 0 <= i < |rest| - 1 ensures CanTransition(rest[i], rest[i + 1]) {
        assert CanTransition(path[i + 1], path[i + 1 + 1]);
      }
      PathLength(rest);
      assert CanTransition(path[0], path[1]);
    }
  }

  // ---- stock ----

  function QuantityOf(p: nat): Item -> int {
    (it: Item) => if it.product == p then it.quantity else 0
  }

  /** Units of one product over all lines, repeats added up. */
  function Demand(items: seq<Item>, p: nat): int {
    SumBy(items, QuantityOf(p))
  }

  function Taken(products: seq<Product>, items: seq<Item>): (r: seq<Product>)
    ensures |r| == |products|
    ensures forall p | 0 <= p < |r| :: r[p] == Product(products[p].stock - Demand(items, p), products[p].published)
  {
    seq(|products|,
        p requires 0 <= p < |products| => Product(products[p].stock - Demand(items, p), products[p].published))
  }

  function Restocked(products: seq<Product>, items: seq<Item>): (r: seq<Product>)
    ensures |r| == |products|
    ensures forall p | 0 <= p < |r| :: r[p] == Product(products[p].stock + Demand(items, p), products[p].published)
  {
    seq(|products|,
        p requires 0 <= p < |products| => Product(products[p].stock + Demand(items, p), products[p].published))
  }

  /** The last line of `items` can be served after the earlier ones took their share. */
  predicate LastFits(products: seq<Product>, items: seq<Item>)
    requires items != []
  {
    var p := items[|items| - 1].product;
    p < |products| && products[p].published && Demand(items, p) <= products[p].stock
  }

  /** The first line that cannot be served. */
  function FirstShort(products: seq<Product>, items: seq<Item>): (r: Option<nat>)
    ensures r.Some? ==> r.value < |items|
  {
    if items == [] then None
    else match FirstShort(products, items[..|items| - 1])
         case Some(k) => Some(k)
         case None => if LastFits(products, items) then None else Some(|items| - 1)
  }

  function ShortError(products: seq<Product>, items: seq<Item>, k: nat): StockError
    requires k < |items|
  {
    var p := items[k].product;
    if p < |products| then StockError(k, products[p].stock - Demand(items[..k], p), !products[p].published)
    else StockError(k, 0, true)
  }

  lemma DemandPush(items: seq<Item>, it: Item, p: nat)
    ensures Demand(items + [it], p) == Demand(items, p) + if it.product == p then it.quantity else 0
  {
  }

  /** No line asks for a negative number of units. */
  predicate Counted(items: seq<Item>) {
    forall it | it in items :: it.quantity >= 0
  }

  lemma {:induction false} DemandNonNegative(items: seq<Item>, p: nat)
    requires Counted(items)
    ensures Demand(items, p) >= 0
  {
    SumByNonNegative(items, QuantityOf(p));
  }

  /** The line-by-line conditional updates accept a cart exactly when every product in it is on sale
      with enough stock for all its lines together, however the cart repeats products. */
  lemma {:induction false} FitsIffDemandCovered(products: seq<Product>, items: seq<Item>)
    requires Counted(items)
    ensures FirstShort(products, items) == None <==>
            forall it | it in items ::
              it.product < |products| && products[it.product].published
              && Demand(items, it.product) <= products[it.product].stock
  {
    if items != [] {
      var rest, last := items[..|items| - 1], items[|items| - 1];
      assert items == rest + [last];
      assert last in items && forall x | x in rest :: x in items;
      FitsIffDemandCovered(products, rest);
      forall it | it in items ensures Demand(rest, it.product) <= Demand(items, it.product)
        ensures it.product != last.product ==> Demand(rest, it.product) == Demand(items, it.product)
      {
        DemandPush(rest, last, it.product);
      }
    }
  }

  /** An accepted cart never drives stock below zero. */
  lemma FitKeepsStockNonNegative(products: seq<Product>, items: seq<Item>)
    requires Counted(items) && FirstShort(products, items) == None
    requires forall p | 0 <= p < |products| :: products[p].stock >= 0
    ensures forall p | 0 <= p < |products| :: Taken(products, items)[p].stock >= 0
  {
    FitsIffDemandCovered(products, items);
    forall p | 0 <= p < |products| ensures Taken(products, items)[p].stock >= 0 {
      if forall it | it in items :: it.product != p {
        NoDemand(items, p);
      }
    }
  }

  lemma {:induction false} NoDemand(items: seq<Item>, p: nat)
    requires forall it | it in items :: it.product != p
    ensures Demand(items, p) == 0
  {
    if items != [] {
      assert forall x | x in items[..|items| - 1] :: x in items;
      NoDemand(items[..|items| - 1], p);
    }
  }
}
