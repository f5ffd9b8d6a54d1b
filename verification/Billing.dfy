/** The billing tables, updated in place: posting and reversing journals, numbering and issuing
    invoices, and the admin's summary of the ledger. */
module Billing {
  import opened Sums
  import opened Ledger
  import opened Commission
  import opened Release
  import opened Invoices
  import opened Shop
  import opened MarketSteps
  import opened TillSteps

  // ---- the grouped read behind the summary ----

  /** One row of the entries grouped by account. */
  datatype Group = Group(account: Account, debit: int, credit: int)

  datatype Summary = Summary(subscriptions: int, commission: int, platformSales: int, totalRevenue: int,
                             merchantPayable: int, payoutsPending: int, paidOut: int, ordersEscrow: int,
                             gatewayHeld: int)

  function IndexOf(rows: seq<Group>, a: Account): (r: Option<nat>)
    ensures r.Some? ==> r.value < |rows| && rows[r.value].account == a
    ensures r.None? ==> forall g | g in rows :: g.account != a
  {
    if rows == [] then None
    else if rows[|rows| - 1].account == a then Some(|rows| - 1)
    else IndexOf(rows[..|rows| - 1], a)
  }

  function AddLine(rows: seq<Group>, l: Line): seq<Group> {
    match IndexOf(rows, l.account)
    case Some(k) => rows[k := Group(l.account, rows[k].debit + l.debit, rows[k].credit + l.credit)]
    case None => rows + [Group(l.account, l.debit, l.credit)]
  }

  function AddLines(rows: seq<Group>, lines: seq<Line>): seq<Group> {
    if lines == [] then rows else AddLine(AddLines(rows, lines[..|lines| - 1]), lines[|lines| - 1])
  }

  /** SELECT account, SUM(debit), SUM(credit) ... GROUP BY account. */
  function Grouped(journals: seq<Journal>): seq<Group> {
    if journals == [] then [] else AddLines(Grouped(journals[..|journals| - 1]), journals[|journals| - 1].entries)
  }

  predicate OneRowEach(rows: seq<Group>) {
    forall i, k | 0 <= i < k < |rows| :: rows[i].account != rows[k].account
  }

  function RowNet(a: Account): Group -> int {
    (g: Group) => if g.account == a then g.credit - g.debit else 0
  }

  function MerchantRow(): Group -> int {
    (g: Group) => if g.account.MerchantAccount? then g.credit - g.debit else 0
  }

  lemma AddLineFacts(rows: seq<Group>, l: Line, a: Account)
    requires OneRowEach(rows)
    ensures OneRowEach(AddLine(rows, l))
    ensures SumBy(AddLine(rows, l), RowNet(a)) ==
            SumBy(rows, RowNet(a)) + if l.account == a then l.credit - l.debit else 0
    ensures SumBy(AddLine(rows, l), MerchantRow()) ==
            SumBy(rows, MerchantRow()) + if l.account.MerchantAccount? then l.credit - l.debit else 0
  {
    match IndexOf(rows, l.account)
    case Some(k) =>
      var g := Group(l.account, rows[k].debit + l.debit, rows[k].credit + l.credit);
      SumByUpdate(rows, k, g, RowNet(a));
      SumByUpdate(rows, k, g, MerchantRow());
    case None =>
      SumByPush(rows, Group(l.account, l.debit, l.credit), RowNet(a));
      SumByPush(rows, Group(l.account, l.debit, l.credit), MerchantRow());
      assert forall k | 0 <= k < |rows| :: rows[k] in rows;
  }

  lemma {:induction false} AddLinesFacts(rows: seq<Group>, lines: seq<Line>, a: Account)
    requires OneRowEach(rows)
    ensures OneRowEach(AddLines(rows, lines))
    ensures SumBy(AddLines(rows, lines), RowNet(a)) == SumBy(rows, RowNet(a)) + Net(lines, a)
    ensures SumBy(AddLines(rows, lines), MerchantRow()) == SumBy(rows, MerchantRow()) + MerchantNet(lines)
  {
    if lines != [] {
      AddLinesFacts(rows, lines[..|lines| - 1], a);
      AddLineFacts(AddLines(rows, lines[..|lines| - 1]), lines[|lines| - 1], a);
    }
  }

  /** Grouping loses nothing: each account's row nets to its balance. */
  lemma {:induction false} GroupedFacts(journals: seq<Journal>, a: Account)
    ensures OneRowEach(Grouped(journals))
    ensures SumBy(Grouped(journals), RowNet(a)) == Balance(journals, a)
    ensures SumBy(Grouped(journals), MerchantRow()) == MerchantPayable(journals)
  {
    if journals != [] {
      GroupedFacts(journals[..|journals| - 1], a);
      AddLinesFacts(Grouped(journals[..|journals| - 1]), journals[|journals| - 1].entries, a);
    }
  }

  lemma {:induction false} AbsentNets(rows: seq<Group>, a: Account)
    requires forall g | g in rows :: g.account != a
    ensures SumBy(rows, RowNet(a)) == 0
  {
    if rows != [] {
      AbsentNets(rows[..|rows| - 1], a);
    }
  }

  /** A later row cannot speak for an account that an earlier row spoke for. */
  lemma NextRow(rows: seq<Group>, k: nat, a: Account)
    requires OneRowEach(rows) && k < |rows|
    ensures SumBy(rows[..k + 1], RowNet(a)) ==
            if rows[k].account == a then rows[k].credit - rows[k].debit else SumBy(rows[..k], RowNet(a))
    ensures SumBy(rows[..k + 1], MerchantRow()) == SumBy(rows[..k], MerchantRow()) + MerchantRow()(rows[k])
  {
    assert rows[..k + 1] == rows[..k] + [rows[k]];
    SumByPush(rows[..k], rows[k], RowNet(a));
    SumByPush(rows[..k], rows[k], MerchantRow());
    if rows[k].account == a {
      AbsentNets(rows[..k], a);
    }
  }

  function SwapLine(l: Line): Line {
    Line(l.account, l.credit, l.debit)
  }

  class BillingTables {
    var journals: seq<Journal>
    var invoices: seq<Invoice>
    var counters: map<nat, nat>

    constructor ()
      ensures Value() == Books([], [], map[])
    {
      journals, invoices, counters := [], [], map[];
    }

    function Value(): Books
      reads this
    {
      Books(journals, invoices, counters)
    }

    /** Puts the tables back to how a transaction found them. */
    method Rollback(to: Books)
      modifies this
      ensures Value() == to
    {
      journals, invoices, counters := to.journals, to.invoices, to.counters;
    }

    // ---- journals ----

    /** Adds up both sides; a line that is negative or on both sides stops it. */
    method Totals(lines: seq<Line>) returns (valid: bool, debit: int, credit: int)
      ensures valid <==> forall l | l in lines :: ValidLine(l)
      ensures valid ==> debit == Debits(lines) && credit == Credits(lines)
    {
      debit, credit := 0, 0;
      for i := 0 to |lines|
        invariant debit == Debits(lines[..i]) && credit == Credits(lines[..i])
        invariant forall k | 0 <= k < i :: ValidLine(lines[k])
      {
        var l := lines[i];
        if l.debit < 0 || l.credit < 0 || (l.debit > 0 && l.credit > 0) {
          assert l in lines;
          return false, debit, credit;
        }
        DebitsPush(lines[..i], l);
        assert lines[..i + 1] == lines[..i] + [l];
        debit, credit := debit + l.debit, credit + l.credit;
      }
      assert lines[..|lines|] == lines;
      valid := true;
    }

    method NonZero(lines: seq<Line>) returns (entries: seq<Line>)
      ensures entries == Compact(lines)
    {
      entries := [];
      for i := 0 to |lines|
        invariant entries == Compact(lines[..i])
      {
        assert lines[..i + 1][..|lines[..i + 1]| - 1] == lines[..i];
        if lines[i].debit != 0 || lines[i].credit != 0 {
          entries := entries + [lines[i]];
        }
      }
      assert lines[..|lines|] == lines;
    }

    method PostJournal(key: Key, lines: seq<Line>) returns (result: PostResult)
      modifies this
      ensures result == PostStatus(old(journals), key, lines)
      ensures Value() == old(Value()).(journals := Post(old(journals), key, lines))
    {
      var valid, debit, credit := Totals(lines);
      if !valid {
        return InvalidLine;
      }
      if debit != credit {
        return Unbalanced;
      }
      if key in Keys(journals) {
        return AlreadyPosted;
      }
      var entries := NonZero(lines);
      journals := journals + [Journal(key, entries)];
      result := Posted;
    }

    method SwapEntries(entries: seq<Line>) returns (lines: seq<Line>)
      ensures lines == Swap(entries)
    {
      lines := [];
      for i := 0 to |entries|
        invariant lines == Swap(entries[..i])
      {
        assert entries[..i + 1][..|entries[..i + 1]| - 1] == entries[..i];
        lines := lines + [SwapLine(entries[i])];
      }
      assert entries[..|entries|] == entries;
    }

    /** Posts the opposite of every journal of these kinds; false when one of them is refused. */
    method ReverseJournals(source: Source, kinds: set<Kind>) returns (ok: bool)
      modifies this
      ensures ok <==> !ReversalRefused(old(journals), source, kinds)
      ensures ok ==> Value() == old(Value()).(journals := Reverse(old(journals), source, kinds))
      ensures invoices == old(invoices) && counters == old(counters)
    {
      var found := journals;
      for i := 0 to |found|
        invariant journals == ReverseUpTo(found, i, found, source, kinds)
        invariant invoices == old(invoices) && counters == old(counters)
        invariant forall j | j in found[..i] :: j.key.source == source && j.key.kind in kinds ==> Sound(Swap(j.entries))
      {
        var j := found[i];
        assert found[..i + 1] == found[..i] + [j];
        if j.key.source == source && j.key.kind in kinds {
          var lines := SwapEntries(j.entries);
          var result := PostJournal(Key(RefundOf(j.key.kind), source), lines);
          if result == InvalidLine || result == Unbalanced {
            assert j in found;
            return false;
          }
        }
      }
      assert found[..|found|] == found;
      ok := true;
    }

    // ---- invoices ----

    method VoidInvoice(source: Source)
      modifies this
      ensures Value() == old(Value()).(invoices := VoidInvoices(old(invoices), source))
    {
      invoices := VoidInvoices(invoices, source);
    }

    method NextInvoiceNumber(year: nat) returns (number: string)
      modifies this
      ensures Value() == old(Value()).(counters := old(counters)[year := Last(old(counters), year) + 1])
      ensures number == FormatNumber(year, Last(old(counters), year) + 1)
    {
      if year in counters {
        counters := counters[year := counters[year] + 1];
      } else {
        counters := counters[year := 1];
      }
      number := FormatNumber(year, counters[year]);
    }

    method IssueInvoice(bill: Bill, year: nat)
      modifies this
      ensures Value() == Invoices.IssueInvoice(old(Value()), bill, year)
    {
      if HasInvoice(invoices, bill.source) {
        return;
      }
      var number := NextInvoiceNumber(year);
      invoices := invoices +
        [Invoice(number, year, bill.source, bill.subtotal, bill.discount, bill.total, bill.lines, false)];
    }

    method IssueOrderInvoice(i: nat, o: Order, year: nat)
      modifies this
      ensures Value() == Invoices.IssueInvoice(old(Value()), OrderBill(i, o), year)
    {
      var items, lines, subtotal := o.items, [], 0;
      for k := 0 to |items|
        invariant lines == BillLines(items[..k]) && subtotal == ItemsGross(items[..k])
        invariant Value() == old(Value())
      {
        var it := items[k];
        assert items[..k + 1][..|items[..k + 1]| - 1] == items[..k];
        var total := it.unitPrice * it.quantity;
        subtotal := subtotal + total;
        lines := lines + [InvoiceLine(it.quantity, it.unitPrice, total)];
      }
      assert items[..|items|] == items;
      IssueInvoice(Bill(OfOrder(i), subtotal, 0, subtotal, lines), year);
    }

    // ---- what fulfilment books ----

    /** Nothing is written when the ledger refuses. */
    method RecordOrderPayment(i: nat, o: Order, year: nat) returns (ok: bool)
      modifies this
      ensures ok == MarketSteps.RecordOrderPayment(old(Value()), i, o, year).Some?
      ensures Value() == if ok then MarketSteps.RecordOrderPayment(old(Value()), i, o, year).value else old(Value())
    {
      var lines := [Line(GatewayBkash, o.total, 0), Line(OrdersEscrow, 0, o.total)];
      var result := PostJournal(PayKey(i), lines);
      if result == InvalidLine || result == Unbalanced {
        return false;
      }
      IssueOrderInvoice(i, o, year);
      ok := true;
    }

    method RecordSubscriptionPayment(p: nat, pm: Payment, year: nat) returns (ok: bool)
      modifies this
      ensures ok == TillSteps.RecordSubscriptionPayment(old(Value()), p, pm, year).Some?
      ensures Value() ==
              if ok then TillSteps.RecordSubscriptionPayment(old(Value()), p, pm, year).value else old(Value())
    {
      var lines := [Line(GatewayBkash, pm.amount, 0), Line(RevenueSubs, 0, pm.amount)];
      var result := PostJournal(SubKey(p), lines);
      if result == InvalidLine || result == Unbalanced {
        return false;
      }
      var original := pm.original;
      if original < pm.amount {
        original := pm.amount;
      }
      IssueInvoice(Bill(OfPayment(p), original, original - pm.amount, pm.amount,
                        [InvoiceLine(1, original, original)]), year);
      ok := true;
    }

    // ---- the summary ----

    /** The figures of the admin's screen, in one pass over the grouped rows. When every journal is
        sound they satisfy the accounting identity. */
    method Summarise() returns (s: Summary)
      ensures s.subscriptions == Balance(journals, RevenueSubs)
      ensures s.commission == Balance(journals, RevenueCommission)
      ensures s.platformSales == Balance(journals, RevenuePlatform)
      ensures s.merchantPayable == MerchantPayable(journals)
      ensures s.payoutsPending == Balance(journals, PayoutsPending)
      ensures s.paidOut == Balance(journals, CashOut)
      ensures s.ordersEscrow == Balance(journals, OrdersEscrow)
      ensures s.gatewayHeld == -Balance(journals, GatewayBkash)
      ensures s.totalRevenue == TotalRevenue(journals)
      ensures (forall j | j in journals :: Sound(j.entries)) ==>
                s.gatewayHeld == s.totalRevenue + s.merchantPayable + s.payoutsPending + s.paidOut + s.ordersEscrow
    {
      var rows := Grouped(journals);
      forall a ensures OneRowEach(rows) && SumBy(rows, RowNet(a)) == Balance(journals, a)
        ensures SumBy(rows, MerchantRow()) == MerchantPayable(journals)
      {
        GroupedFacts(journals, a);
      }
      s := Summary(0, 0, 0, 0, 0, 0, 0, 0, 0);
      for k := 0 to |rows|
        invariant s.subscriptions == SumBy(rows[..k], RowNet(RevenueSubs))
        invariant s.commission == SumBy(rows[..k], RowNet(RevenueCommission))
        invariant s.platformSales == SumBy(rows[..k], RowNet(RevenuePlatform))
        invariant s.payoutsPending == SumBy(rows[..k], RowNet(PayoutsPending))
        invariant s.paidOut == SumBy(rows[..k], RowNet(CashOut))
        invariant s.ordersEscrow == SumBy(rows[..k], RowNet(OrdersEscrow))
        invariant s.gatewayHeld == -SumBy(rows[..k], RowNet(GatewayBkash))
        invariant s.merchantPayable == SumBy(rows[..k], MerchantRow())
      {
        forall a | true
          ensures SumBy(rows[..k + 1], RowNet(a)) ==
                  if rows[k].account == a then rows[k].credit - rows[k].debit else SumBy(rows[..k], RowNet(a))
          ensures SumBy(rows[..k + 1], MerchantRow()) == SumBy(rows[..k], MerchantRow()) + MerchantRow()(rows[k])
        {
          NextRow(rows, k, a);
        }
        var credit := rows[k].credit - rows[k].debit;
        match rows[k].account
        case RevenueSubs => s := s.(subscriptions := credit);
        case RevenueCommission => s := s.(commission := credit);
        case RevenuePlatform => s := s.(platformSales := credit);
        case PayoutsPending => s := s.(payoutsPending := credit);
        case CashOut => s := s.(paidOut := credit);
        case OrdersEscrow => s := s.(ordersEscrow := credit);
        case GatewayBkash => s := s.(gatewayHeld := -credit);
        case MerchantAccount(_) => s := s.(merchantPayable := s.merchantPayable + credit);
      }
      assert rows[..|rows|] == rows;
      s := s.(totalRevenue := s.subscriptions + s.commission + s.platformSales);
      if forall j | j in journals :: Sound(j.entries) {
        AccountingIdentity(journals);
      }
    }
  }
}
