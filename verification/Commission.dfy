/** Order lines, the commission on each, and the seller dashboard's estimate of it. */
module Commission {
  import opened Sums

  /** A line of an order, with the price and the commission rate (in percent) of checkout time. */
  datatype Item = Item(product: nat, merchant: nat, quantity: int, unitPrice: int, rate: real)

  function Gross(it: Item): int {
    it.unitPrice * it.quantity
  }

  /** The nearest integer, halves away from zero. */
  function Round(x: real): int {
    if x >= 0.0 then (x + 0.5).Floor else -((-x + 0.5).Floor)
  }

  function ExactCommission(gross: int, rate: real): real {
    gross as real * rate / 100.0
  }

  function CommissionFor(gross: int, rate: real): (c: int)
    ensures gross >= 0 ==> 0 <= c <= gross
  {
    var c := Round(ExactCommission(gross, rate));
    if c < 0 then 0 else if c > gross then gross else c
  }

  function LineCommission(it: Item): int {
    CommissionFor(Gross(it), it.rate)
  }

  lemma RoundIsClose(x: real)
    ensures -0.5 <= Round(x) as real - x <= 0.5
  {
  }

  lemma ExactWithin(gross: int, rate: real)
    requires gross >= 0 && 0.0 <= rate <= 100.0
    ensures 0.0 <= ExactCommission(gross, rate) <= gross as real
  {
    var g := gross as real;
    ProductInOrder(g, 0.0, rate);
    ProductInOrder(g, rate, 100.0);
    assert g * 0.0 == 0.0;
  }

  /** The exact commission lies between zero and the gross, or misses by no more than rounding does. */
  predicate InRange(gross: int, rate: real) {
    var exact := ExactCommission(gross, rate);
    if gross >= 0 then -0.5 <= exact <= gross as real + 0.5 else exact == -0.5
  }

  /** Of any gross and rate, negative ones included: the commission is off by at most half a taka
      exactly when the clamp does not bite; on a negative gross it all but always does. */
  lemma CommissionCloseIff(gross: int, rate: real)
    ensures -0.5 <= CommissionFor(gross, rate) as real - ExactCommission(gross, rate) <= 0.5 <==> InRange(gross, rate)
    ensures gross < 0 && ExactCommission(gross, rate) <= -0.5 ==> CommissionFor(gross, rate) == 0
    ensures gross < 0 && ExactCommission(gross, rate) > -0.5 ==> CommissionFor(gross, rate) == gross
  {
    RoundedSigns(ExactCommission(gross, rate), gross);
  }

  lemma RoundedSigns(x: real, bound: int)
    ensures -0.5 <= Round(x) as real - x <= 0.5
    ensures Round(x) < 0 <==> x <= -0.5
    ensures bound >= 0 ==> (Round(x) > bound <==> x >= bound as real + 0.5)
  {
  }

  /** For rates in [0, 100] that leaves the lines of non-negative gross, and those of exactly -0.5. */
  lemma CommissionIsClose(gross: int, rate: real)
    requires 0.0 <= rate <= 100.0
    ensures -0.5 <= CommissionFor(gross, rate) as real - ExactCommission(gross, rate) <= 0.5 <==>
            gross >= 0 || gross as real * rate == -50.0
  {
    CommissionCloseIff(gross, rate);
    if gross >= 0 {
      ExactWithin(gross, rate);
    }
  }

  lemma ProductInOrder(g: real, a: real, b: real)
    requires g >= 0.0 && a <= b
    ensures g * a <= g * b
  {
  }

  lemma NonNegativeProduct(g: real, p: real)
    requires g >= 0.0 && p >= 0.0
    ensures g * p >= 0.0
  {
  }

  // ---- the ledger's view and the dashboard's view of a seller's lines ----

  /** What the ledger credits a seller for a line once it is released. */
  function LedgerNet(): Item -> int {
    (it: Item) => Gross(it) - LineCommission(it)
  }

  /** What the dashboard adds up for a line: the unrounded share. */
  function DashboardShare(it: Item): real {
    Gross(it) as real * (1.0 - it.rate / 100.0)
  }

  function DashboardNet(items: seq<Item>): real {
    if items == [] then 0.0 else DashboardNet(items[..|items| - 1]) + DashboardShare(items[|items| - 1])
  }

  /** Conversion of a float to an integer drops the fraction. */
  function Truncate(x: real): int {
    if x >= 0.0 then x.Floor else -((-x).Floor)
  }

  predicate SaleLine(it: Item) {
    it.quantity >= 0 && it.unitPrice >= 0 && 0.0 <= it.rate <= 100.0
  }

  /** How far the ledger's credit for a line lies above the dashboard's share of it. */
  function LineGap(it: Item): real {
    LedgerNet()(it) as real - DashboardShare(it)
  }

  predicate CloseLine(it: Item) {
    InRange(Gross(it), it.rate)
  }

  lemma LineGapIff(it: Item)
    ensures LineGap(it) == ExactCommission(Gross(it), it.rate) - LineCommission(it) as real
    ensures -0.5 <= LineGap(it) <= 0.5 <==> CloseLine(it)
  {
    CommissionCloseIff(Gross(it), it.rate);
    var g, part := Gross(it) as real, it.rate / 100.0;
    assert DashboardShare(it) == g - g * part by { Distribute(g, part); }
    assert ExactCommission(Gross(it), it.rate) == g * part by { Regroup(g, it.rate); }
  }

  lemma SaleLineFacts(it: Item)
    requires SaleLine(it)
    ensures CloseLine(it) && DashboardShare(it) >= 0.0
  {
    NonNegativeGross(it.unitPrice, it.quantity);
    CommissionIsClose(Gross(it), it.rate);
    CommissionCloseIff(Gross(it), it.rate);
    NonNegativeProduct(Gross(it) as real, 1.0 - it.rate / 100.0);
  }

  lemma NonNegativeGross(price: int, quantity: int)
    requires price >= 0 && quantity >= 0
    ensures price * quantity >= 0
  {
  }

  lemma Distribute(g: real, p: real)
    ensures g * (1.0 - p) == g - g * p
  {
  }

  lemma Regroup(g: real, r: real)
    ensures g * r / 100.0 == g * (r / 100.0)
  {
  }

  /** The gaps of the lines whose commission was clamped. */
  function Strayed(items: seq<Item>): real {
    if items == [] then 0.0 else
      var it := items[|items| - 1];
      Strayed(items[..|items| - 1]) + if CloseLine(it) then 0.0 else LineGap(it)
  }

  function CloseLines(items: seq<Item>): nat {
    if items == [] then 0 else CloseLines(items[..|items| - 1]) + if CloseLine(items[|items| - 1]) then 1 else 0
  }

  /** Whatever the prices, quantities and rates: but for the clamped lines, ledger and dashboard differ
      by at most half a taka per line. */
  lemma {:induction false} LedgerNearDashboard(items: seq<Item>)
    ensures var gap := SumBy(items, LedgerNet()) as real - DashboardNet(items) - Strayed(items);
            -(CloseLines(items) as real) * 0.5 <= gap <= CloseLines(items) as real * 0.5
  {
    if items != [] {
      LedgerNearDashboard(items[..|items| - 1]);
      LineGapIff(items[|items| - 1]);
    }
  }

  lemma {:induction false} SalesDoNotStray(items: seq<Item>)
    requires forall it | it in items :: SaleLine(it)
    ensures Strayed(items) == 0.0 && CloseLines(items) == |items| && DashboardNet(items) >= 0.0
  {
    if items != [] {
      var rest, it := items[..|items| - 1], items[|items| - 1];
      assert it in items && forall x | x in rest :: x in items;
      SalesDoNotStray(rest);
      SaleLineFacts(it);
    }
  }
}
