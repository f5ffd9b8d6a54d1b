/** The seller dashboard: one pass over a seller's live order lines. */
module Insights {
  import opened Sums
  import opened Commission

  datatype StatRow = StatRow(item: Item, order: nat, day: int, delivered: bool)

  datatype Aggregate = Aggregate(units: int, value: int)

  datatype DailyPoint = DailyPoint(day: int, orders: nat, revenue: int)

  datatype MerchantStats = MerchantStats(days: nat, orders: nat, delivered: nat, units: int, gross: int, net: int,
                                         average: int, daily: seq<DailyPoint>, byProduct: map<nat, Aggregate>)

  function Items(rows: seq<StatRow>): (items: seq<Item>)
    ensures |items| == |rows| && forall i | 0 <= i < |rows| :: items[i] == rows[i].item
  {
    seq(|rows|, i requires 0 <= i < |rows| => rows[i].item)
  }

  function NetOf(rows: seq<StatRow>): real {
    if rows == [] then 0.0 else NetOf(rows[..|rows| - 1]) + DashboardShare(rows[|rows| - 1].item)
  }

  /** The displayed figure: a half is added and the fraction dropped. */
  function Shown(net: real): int {
    Truncate(net + 0.5)
  }

  lemma {:induction false} NetOfItems(rows: seq<StatRow>)
    ensures NetOf(rows) == DashboardNet(Items(rows))
  {
    if rows != [] {
      NetOfItems(rows[..|rows| - 1]);
      assert Items(rows)[..|rows| - 1] == Items(rows[..|rows| - 1]);
    }
  }

  /** A row's amount if it satisfies a condition. */
  function Where(wanted: StatRow -> bool, amount: StatRow -> int): StatRow -> int {
    (r: StatRow) => if wanted(r) then amount(r) else 0
  }

  function LineValue(): StatRow -> int { (r: StatRow) => Gross(r.item) }

  function LineUnits(): StatRow -> int { (r: StatRow) => r.item.quantity }

  function OnDay(d: int): StatRow -> bool { (r: StatRow) => r.day == d }

  function OfProduct(p: nat): StatRow -> bool { (r: StatRow) => r.item.product == p }

  /** The distinct orders of the rows that satisfy a condition. */
  function OrdersWhere(rows: seq<StatRow>, wanted: StatRow -> bool): set<nat> {
    if rows == [] then {} else
      OrdersWhere(rows[..|rows| - 1], wanted) + if wanted(rows[|rows| - 1]) then {rows[|rows| - 1].order} else {}
  }

  function AnyRow(): StatRow -> bool { (r: StatRow) => true }

  function DeliveredRow(): StatRow -> bool { (r: StatRow) => r.delivered }

  function Days(rows: seq<StatRow>): set<int> {
    if rows == [] then {} else Days(rows[..|rows| - 1]) + {rows[|rows| - 1].day}
  }

  function Products(rows: seq<StatRow>): set<nat> {
    if rows == [] then {} else Products(rows[..|rows| - 1]) + {rows[|rows| - 1].item.product}
  }

  ghost predicate DaysRight(rows: seq<StatRow>, dayOrders: map<int, set<nat>>, dayRevenue: map<int, int>) {
    && dayOrders.Keys == Days(rows)
    && (forall d | d in dayOrders :: dayOrders[d] == OrdersWhere(rows, OnDay(d)))
    && dayRevenue.Keys == Days(rows)
    && (forall d | d in dayRevenue :: dayRevenue[d] == SumBy(rows, Where(OnDay(d), LineValue())))
  }

  ghost predicate ProductsRight(rows: seq<StatRow>, byProduct: map<nat, Aggregate>) {
    && byProduct.Keys == Products(rows)
    && (forall p | p in byProduct ::
          byProduct[p] ==
            Aggregate(SumBy(rows, Where(OfProduct(p), LineUnits())), SumBy(rows, Where(OfProduct(p), LineValue()))))
  }

  lemma DayStep(rows: seq<StatRow>, r: StatRow, d: int)
    ensures SumBy(rows + [r], Where(OnDay(d), LineValue())) ==
            SumBy(rows, Where(OnDay(d), LineValue())) + if r.day == d then Gross(r.item) else 0
    ensures OrdersWhere(rows + [r], OnDay(d)) == OrdersWhere(rows, OnDay(d)) + if r.day == d then {r.order} else {}
  {
  }

  lemma ProductStep(rows: seq<StatRow>, r: StatRow, p: nat)
    ensures SumBy(rows + [r], Where(OfProduct(p), LineUnits())) ==
            SumBy(rows, Where(OfProduct(p), LineUnits())) + if r.item.product == p then r.item.quantity else 0
    ensures SumBy(rows + [r], Where(OfProduct(p), LineValue())) ==
            SumBy(rows, Where(OfProduct(p), LineValue())) + if r.item.product == p then Gross(r.item) else 0
  {
  }

  lemma KeysStep(rows: seq<StatRow>, r: StatRow)
    ensures Days(rows + [r]) == Days(rows) + {r.day}
    ensures Products(rows + [r]) == Products(rows) + {r.item.product}
  {
  }

  lemma {:induction false} NewDay(rows: seq<StatRow>, d: int)
    requires d !in Days(rows)
    ensures SumBy(rows, Where(OnDay(d), LineValue())) == 0 && OrdersWhere(rows, OnDay(d)) == {}
  {
    if rows != [] {
      NewDay(rows[..|rows| - 1], d);
    }
  }

  lemma {:induction false} NewProduct(rows: seq<StatRow>, p: nat)
    requires p !in Products(rows)
    ensures SumBy(rows, Where(OfProduct(p), LineUnits())) == 0 && SumBy(rows, Where(OfProduct(p), LineValue())) == 0
  {
    if rows != [] {
      NewProduct(rows[..|rows| - 1], p);
    }
  }

  /** Adds a row to its day's orders and revenue. */
  method CountDay(dayOrders: map<int, set<nat>>, dayRevenue: map<int, int>, r: StatRow, ghost seen: seq<StatRow>)
    returns (orders: map<int, set<nat>>, revenue: map<int, int>)
    requires DaysRight(seen, dayOrders, dayRevenue)
    ensures DaysRight(seen + [r], orders, revenue)
  {
    orders, revenue := dayOrders, dayRevenue;
    if r.day !in orders {
      NewDay(seen, r.day);
      orders, revenue := orders[r.day := {}], revenue[r.day := 0];
    }
    orders := orders[r.day := orders[r.day] + {r.order}];
    revenue := revenue[r.day := revenue[r.day] + r.item.unitPrice * r.item.quantity];
    forall d ensures SumBy(seen + [r], Where(OnDay(d), LineValue())) ==
                     SumBy(seen, Where(OnDay(d), LineValue())) + if r.day == d then Gross(r.item) else 0
      ensures OrdersWhere(seen + [r], OnDay(d)) == OrdersWhere(seen, OnDay(d)) + if r.day == d then {r.order} else {}
    {
      DayStep(seen, r, d);
    }
    KeysStep(seen, r);
  }

  /** Adds a row to its product's units and value. */
  method CountProduct(byProduct: map<nat, Aggregate>, r: StatRow, ghost seen: seq<StatRow>)
    returns (counted: map<nat, Aggregate>)
    requires ProductsRight(seen, byProduct)
    ensures ProductsRight(seen + [r], counted)
  {
    var p := r.item.product;
    counted := byProduct;
    if p !in counted {
      NewProduct(seen, p);
      counted := counted[p := Aggregate(0, 0)];
    }
    var a := counted[p];
    counted := counted[p := Aggregate(a.units + r.item.quantity, a.value + r.item.unitPrice * r.item.quantity)];
    forall q: nat
      ensures SumBy(seen + [r], Where(OfProduct(q), LineUnits())) ==
              SumBy(seen, Where(OfProduct(q), LineUnits())) + if p == q then r.item.quantity else 0
      ensures SumBy(seen + [r], Where(OfProduct(q), LineValue())) ==
              SumBy(seen, Where(OfProduct(q), LineValue())) + if p == q then Gross(r.item) else 0
    {
      ProductStep(seen, r, q);
    }
    KeysStep(seen, r);
  }

  method AddNet(net: real, r: StatRow, ghost seen: seq<StatRow>) returns (sum: real)
    requires net == NetOf(seen)
    ensures sum == NetOf(seen + [r])
  {
    assert (seen + [r])[..|seen|] == seen;
    var line := r.item.unitPrice * r.item.quantity;
    sum := net + line as real * (1.0 - r.item.rate / 100.0);
  }

  lemma TotalsStep(rows: seq<StatRow>, r: StatRow)
    ensures SumBy(rows + [r], LineUnits()) == SumBy(rows, LineUnits()) + r.item.quantity
    ensures SumBy(rows + [r], LineValue()) == SumBy(rows, LineValue()) + Gross(r.item)
    ensures OrdersWhere(rows + [r], AnyRow()) == OrdersWhere(rows, AnyRow()) + {r.order}
    ensures OrdersWhere(rows + [r], DeliveredRow()) ==
            OrdersWhere(rows, DeliveredRow()) + if r.delivered then {r.order} else {}
  {
  }

  /** What the pass over the rows accumulates. */
  datatype Tally = Tally(orders: set<nat>, delivered: set<nat>, units: int, gross: int, net: real,
                         dayOrders: map<int, set<nat>>, dayRevenue: map<int, int>, byProduct: map<nat, Aggregate>)

  ghost predicate Tallies(rows: seq<StatRow>, t: Tally) {
    && t.orders == OrdersWhere(rows, AnyRow()) && t.delivered == OrdersWhere(rows, DeliveredRow())
    && t.units == SumBy(rows, LineUnits()) && t.gross == SumBy(rows, LineValue())
    && t.net == NetOf(rows)
    && DaysRight(rows, t.dayOrders, t.dayRevenue) && ProductsRight(rows, t.byProduct)
  }

  method CountRow(t: Tally, r: StatRow, ghost seen: seq<StatRow>) returns (after: Tally)
    requires Tallies(seen, t)
    ensures Tallies(seen + [r], after)
  {
    TotalsStep(seen, r);
    var line := r.item.unitPrice * r.item.quantity;
    var delivered := t.delivered;
    if r.delivered {
      delivered := delivered + {r.order};
    }
    var net := AddNet(t.net, r, seen);
    var dayOrders, dayRevenue := CountDay(t.dayOrders, t.dayRevenue, r, seen);
    var byProduct := CountProduct(t.byProduct, r, seen);
    after := Tally(t.orders + {r.order}, delivered, t.units + r.item.quantity, t.gross + line, net, dayOrders,
                   dayRevenue, byProduct);
  }

  method TallyRows(rows: seq<StatRow>) returns (t: Tally)
    ensures Tallies(rows, t)
  {
    t := Tally({}, {}, 0, 0, 0.0, map[], map[], map[]);
    for i := 0 to |rows|
      invariant Tallies(rows[..i], t)
    {
      t := CountRow(t, rows[i], rows[..i]);
      assert rows[..i + 1] == rows[..i] + [rows[i]];
    }
    assert rows[..|rows|] == rows;
  }

  // ---- the daily series ----

  /** The length of the window, 30 days unless a sensible one is asked for. */
  function Window(days: int): (n: nat)
    ensures 1 <= n <= 365
    ensures 1 <= days <= 365 ==> n == days
    ensures !(1 <= days <= 365) ==> n == 30
  {
    if days < 1 || days > 365 then 30 else days
  }

  function RevenueOn(rows: seq<StatRow>, first: int): nat -> int {
    (d: nat) => SumBy(rows, Where(OnDay(first + d), LineValue()))
  }

  function OrdersOn(rows: seq<StatRow>, first: int): nat -> nat {
    (d: nat) => |OrdersWhere(rows, OnDay(first + d))|
  }

  ghost predicate SeriesRight(rows: seq<StatRow>, daily: seq<DailyPoint>, first: int) {
    forall d: nat | d < |daily| ::
      daily[d] == DailyPoint(first + d, OrdersOn(rows, first)(d), RevenueOn(rows, first)(d))
  }

  /** One point per day of the window that ends today; a day without rows gets zeros. */
  method DailySeries(dayOrders: map<int, set<nat>>, dayRevenue: map<int, int>, n: nat, today: int,
                     ghost rows: seq<StatRow>)
    returns (daily: seq<DailyPoint>)
    requires DaysRight(rows, dayOrders, dayRevenue)
    ensures |daily| == n && SeriesRight(rows, daily, today - (n - 1))
  {
    daily := [];
    var first := today - (n - 1);
    for d := 0 to n
      invariant |daily| == d && SeriesRight(rows, daily, first)
    {
      var day, orders, revenue := first + d, 0, 0;
      if day in dayOrders {
        orders, revenue := |dayOrders[day]|, dayRevenue[day];
      } else {
        NewDay(rows, day);
      }
      daily := daily + [DailyPoint(day, orders, revenue)];
    }
  }

  function Between(first: int, n: nat): StatRow -> bool {
    (r: StatRow) => first <= r.day < first + n
  }

  /** The points add up to the rows of the window's days. */
  lemma {:induction false} DailyTotal(rows: seq<StatRow>, first: int, n: nat)
    ensures SumTo(n, RevenueOn(rows, first)) == SumBy(rows, Where(Between(first, n), LineValue()))
  {
    if rows == [] {
      NoRevenue(first, n);
    } else {
      var rest, r := rows[..|rows| - 1], rows[|rows| - 1];
      DailyTotal(rest, first, n);
      forall d: nat
        ensures RevenueOn(rows, first)(d) == RevenueOn(rest, first)(d) + if r.day == first + d then Gross(r.item) else 0
      {
        DayStep(rest, r, first + d);
        assert rows == rest + [r];
      }
      if first <= r.day < first + n {
        SumToUpdate(n, RevenueOn(rest, first), RevenueOn(rows, first), r.day - first);
      } else {
        SumToSame(n, RevenueOn(rest, first), RevenueOn(rows, first));
      }
    }
  }

  lemma {:induction false} NoRevenue(first: int, n: nat)
    ensures SumTo(n, RevenueOn([], first)) == 0
  {
    if n > 0 {
      NoRevenue(first, n - 1);
      NewDay([], first + n - 1);
    }
  }

  /** The query reaches back a full n days from this moment, so it may bring rows of n + 1 calendar days.
      The series shows n: it falls short of the gross revenue by what was sold on the earliest day. */
  lemma {:induction false} SeriesMissesEarliestDay(rows: seq<StatRow>, today: int, n: nat)
    requires forall r | r in rows :: today - n <= r.day <= today
    ensures SumTo(n, RevenueOn(rows, today - (n - 1))) ==
            SumBy(rows, LineValue()) - SumBy(rows, Where(OnDay(today - n), LineValue()))
  {
    DailyTotal(rows, today - (n - 1), n);
    Earliest(rows, today, n);
  }

  lemma {:induction false} Earliest(rows: seq<StatRow>, today: int, n: nat)
    requires forall r | r in rows :: today - n <= r.day <= today
    ensures SumBy(rows, LineValue()) ==
            SumBy(rows, Where(Between(today - (n - 1), n), LineValue()))
              + SumBy(rows, Where(OnDay(today - n), LineValue()))
  {
    if rows != [] {
      assert rows[|rows| - 1] in rows && forall r | r in rows[..|rows| - 1] :: r in rows;
      Earliest(rows[..|rows| - 1], today, n);
    }
  }

  /** Accumulates everything in one pass, then rounds the net by adding a half and dropping the
      fraction, averages over the distinct orders and fills in the days. */
  method Stats(rows: seq<StatRow>, days: int, today: int) returns (out: MerchantStats)
    ensures out.orders == |OrdersWhere(rows, AnyRow())| && out.delivered == |OrdersWhere(rows, DeliveredRow())|
    ensures out.units == SumBy(rows, LineUnits()) && out.gross == SumBy(rows, LineValue())
    ensures out.net == Shown(NetOf(rows))
    ensures out.average == if out.orders == 0 then 0 else Quotient(out.gross, out.orders)
    ensures out.days == Window(days) && |out.daily| == out.days && SeriesRight(rows, out.daily, today - (out.days - 1))
    ensures ProductsRight(rows, out.byProduct)
  {
    var t := TallyRows(rows);
    var average := if |t.orders| > 0 then Quotient(t.gross, |t.orders|) else 0;
    var n := Window(days);
    var daily := DailySeries(t.dayOrders, t.dayRevenue, n, today, rows);
    out := MerchantStats(n, |t.orders|, |t.delivered|, t.units, t.gross, Shown(t.net), average, daily, t.byProduct);
  }

  /** For any lines the dashboard's net differs from what the ledger credits by the gaps of the clamped
      lines, and otherwise by at most half a taka per line and half a taka more; a whole one more when
      the net is negative, because dropping the fraction takes a negative figure up. */
  lemma {:induction false} NetRevenueNearLedger(rows: seq<StatRow>)
    ensures var items := Items(rows);
            var gap := (Shown(NetOf(rows)) - SumBy(items, LedgerNet())) as real + Strayed(items);
            var n := CloseLines(items) as real;
            && -(n + 1.0) * 0.5 <= gap <= (n + 3.0) * 0.5
            && (NetOf(rows) >= -0.5 ==> gap <= (n + 1.0) * 0.5)
  {
    LedgerNearDashboard(Items(rows));
    NetOfItems(rows);
    ShownIsClose(NetOf(rows));
  }

  lemma ShownIsClose(net: real)
    ensures -0.5 <= Shown(net) as real - net < 1.5
    ensures net >= -0.5 ==> Shown(net) as real - net <= 0.5
  {
  }

  /** Lines of non-negative price and quantity at rates in [0, 100] leave (n + 1) / 2. */
  lemma {:induction false} SaleRevenueNearLedger(rows: seq<StatRow>)
    requires forall r | r in rows :: SaleLine(r.item)
    ensures var shown, credited := Shown(NetOf(rows)), SumBy(Items(rows), LedgerNet());
            -(|rows| + 1) <= 2 * (shown - credited) <= |rows| + 1
  {
    var items := Items(rows);
    forall it | it in items ensures SaleLine(it) {
      var i :| 0 <= i < |items| && items[i] == it;
      assert rows[i] in rows;
    }
    SalesDoNotStray(items);
    NetOfItems(rows);
    NetRevenueNearLedger(rows);
    var shown, credited := Shown(NetOf(rows)), SumBy(items, LedgerNet());
    assert (2 * (shown - credited)) as real == 2.0 * (shown - credited) as real;
    assert (|rows| + 1) as real == |rows| as real + 1.0;
  }

  /** Two lines of one seller that are released together, at 10 percent: -100 and 500. The ledger
      credits 350, the dashboard shows 360. */
  lemma NegativeLineStrays(order: nat, day: int)
    ensures var rows := [StatRow(Item(0, 0, 1, -100, 10.0), order, day, true),
                         StatRow(Item(1, 0, 1, 500, 10.0), order, day, true)];
            SumBy(Items(rows), LedgerNet()) == 350 && Shown(NetOf(rows)) == 360
  {
    var x, y := Item(0, 0, 1, -100, 10.0), Item(1, 0, 1, 500, 10.0);
    var a, b := StatRow(x, order, day, true), StatRow(y, order, day, true);
    TenPercent(x);
    TenPercent(y);
    assert Items([a, b]) == [x] + [y] && [a, b] == [a] + [b] && [x] == [] + [x] && [a] == [] + [a];
    SumByPush([], x, LedgerNet());
    SumByPush([x], y, LedgerNet());
    NetPush([], a);
    NetPush([a], b);
  }

  lemma NetPush(rows: seq<StatRow>, r: StatRow)
    ensures NetOf(rows + [r]) == NetOf(rows) + DashboardShare(r.item)
  {
    assert (rows + [r])[..|rows|] == rows;
  }

  lemma TenPercent(it: Item)
    requires it.rate == 10.0 && it.quantity == 1 && it.unitPrice in {-100, 500}
    ensures LedgerNet()(it) == if it.unitPrice == -100 then -100 else 450
    ensures DashboardShare(it) == if it.unitPrice == -100 then -90.0 else 450.0
  {
    assert Gross(it) == it.unitPrice;
    assert it.rate / 100.0 == 0.1;
    CommissionCloseIff(Gross(it), it.rate);
    if it.unitPrice == 500 {
      assert ExactCommission(500, 10.0) == 50.0;
      assert Round(50.0) == 50;
    } else {
      assert ExactCommission(-100, 10.0) == -10.0;
    }
  }
}
