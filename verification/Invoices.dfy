/** Invoices: printed numbers, the yearly counter, and issuing a receipt once per source. */
module Invoices {
  import opened Sums
  import opened Ledger

  // ---- the printed number ----

  function Digit(d: nat): char
    requires d < 10
  {
    ('0' as int + d) as char
  }

  /** Decimal, without leading zeros. */
  function Decimal(n: nat): string {
    if n < 10 then [Digit(n)] else Decimal(n / 10) + [Digit(n % 10)]
  }

  /** Zero-padded on the left to at least `width` characters. */
  function Pad(s: string, width: nat): string
    decreases width - |s|
  {
    if |s| >= width then s else Pad("0" + s, width)
  }

  function FormatNumber(year: nat, n: nat): string {
    "INV-" + Decimal(year) + "-" + Pad(Decimal(n), 6)
  }

  /** The number a string of decimal digits stands for. */
  function Value(s: string): int {
    if s == "" then 0 else Value(s[..|s| - 1]) * 10 + (s[|s| - 1] as int - '0' as int)
  }

  lemma {:induction false} DecimalFacts(n: nat)
    ensures Value(Decimal(n)) == n
    ensures forall c | c in Decimal(n) :: '0' <= c <= '9'
  {
    if n >= 10 {
      DecimalFacts(n / 10);
      var d := Decimal(n);
      assert d[..|d| - 1] == Decimal(n / 10);
    } else {
      assert Decimal(n)[..0] == "";
    }
  }

  lemma {:induction false} ZeroPrefix(s: string)
    ensures Value("0" + s) == Value(s)
  {
    if s == "" {
      assert ("0" + s)[..0] == "";
    } else {
      ZeroPrefix(s[..|s| - 1]);
      assert ("0" + s)[..|s|] == "0" + s[..|s| - 1];
    }
  }

  lemma {:induction false} PadFacts(s: string, width: nat)
    ensures Value(Pad(s, width)) == Value(s)
    decreases width - |s|
  {
    if |s| < width {
      ZeroPrefix(s);
      PadFacts("0" + s, width);
    }
  }

  /** A text before the first dash, and the text after it, are determined by the whole. */
  lemma SplitAtDash(a: string, b: string, c: string, d: string)
    requires '-' !in a && '-' !in c
    requires a + "-" + b == c + "-" + d
    ensures a == c && b == d
  {
    var s, t := a + "-" + b, c + "-" + d;
    assert forall i | 0 <= i < |a| :: s[i] == a[i] && a[i] in a;
    assert forall i | 0 <= i < |c| :: t[i] == c[i] && c[i] in c;
    assert s[|a|] == '-' && t[|c|] == '-';
    assert a == s[..|a|] && c == t[..|c|];
    assert b == s[|a| + 1..] && d == t[|c| + 1..];
  }

  /** Distinct (year, number) pairs print to distinct strings. */
  lemma NumbersPrintApart(y: nat, n: nat, y': nat, n': nat)
    requires FormatNumber(y, n) == FormatNumber(y', n')
    ensures y == y' && n == n'
  {
    var a, b := Decimal(y), Pad(Decimal(n), 6);
    var c, d := Decimal(y'), Pad(Decimal(n'), 6);
    DecimalFacts(y);
    DecimalFacts(y');
    assert FormatNumber(y, n)[4..] == a + "-" + b;
    assert FormatNumber(y', n')[4..] == c + "-" + d;
    SplitAtDash(a, b, c, d);
    DecimalFacts(n);
    DecimalFacts(n');
    PadFacts(Decimal(n), 6);
    PadFacts(Decimal(n'), 6);
  }

  // ---- the tables ----

  datatype InvoiceLine = InvoiceLine(quantity: int, unitPrice: int, total: int)

  datatype Invoice = Invoice(number: string, year: nat, source: Source, subtotal: int, discount: int, total: int,
                             lines: seq<InvoiceLine>, voided: bool)

  /** What a payment asks an invoice for. */
  datatype Bill = Bill(source: Source, subtotal: int, discount: int, total: int, lines: seq<InvoiceLine>)

  /** The billing tables that commit or roll back together with a payment. */
  datatype Books = Books(journals: seq<Journal>, invoices: seq<Invoice>, counters: map<nat, nat>)

  function Last(counters: map<nat, nat>, year: nat): nat {
    if year in counters then counters[year] else 0
  }

  predicate HasInvoice(invoices: seq<Invoice>, source: Source) {
    exists inv | inv in invoices :: inv.source == source
  }

  function NewInvoice(bill: Bill, year: nat, n: nat): Invoice {
    Invoice(FormatNumber(year, n), year, bill.source, bill.subtotal, bill.discount, bill.total, bill.lines, false)
  }

  function IssueInvoice(b: Books, bill: Bill, year: nat): Books {
    if HasInvoice(b.invoices, bill.source) then b else
      var n := Last(b.counters, year) + 1;
      b.(counters := b.counters[year := n], invoices := b.invoices + [NewInvoice(bill, year, n)])
  }

  /** Stamp the invoice of a source VOID. */
  function VoidInvoices(invoices: seq<Invoice>, source: Source): (r: seq<Invoice>)
    ensures |r| == |invoices|
    ensures forall i | 0 <= i < |r| ::
              r[i] == if invoices[i].source == source then invoices[i].(voided := true) else invoices[i]
  {
    seq(|invoices|, i requires 0 <= i < |invoices| =>
      if invoices[i].source == source then invoices[i].(voided := true) else invoices[i])
  }

  // ---- the invariant ----

  /** The invoices issued in one year, oldest first. */
  function OfYear(invoices: seq<Invoice>, year: nat): seq<Invoice> {
    if invoices == [] then [] else
      OfYear(invoices[..|invoices| - 1], year) +
      if invoices[|invoices| - 1].year == year then [invoices[|invoices| - 1]] else []
  }

  function LineTotal(): InvoiceLine -> int {
    (l: InvoiceLine) => l.total
  }

  predicate BillAddsUp(subtotal: int, discount: int, total: int, lines: seq<InvoiceLine>) {
    && subtotal - discount == total
    && subtotal == SumBy(lines, LineTotal())
    && forall l | l in lines :: l.total == l.quantity * l.unitPrice
  }

  /** The numbers of a year are 1, 2, ..., Last in order of issue. */
  ghost predicate Gapless(invoices: seq<Invoice>, counters: map<nat, nat>, year: nat) {
    && |OfYear(invoices, year)| == Last(counters, year)
    && forall k | 0 <= k < |OfYear(invoices, year)| :: OfYear(invoices, year)[k].number == FormatNumber(year, k + 1)
  }

  ghost predicate InvoiceInv(invoices: seq<Invoice>, counters: map<nat, nat>) {
    && (forall year: nat :: Gapless(invoices, counters, year))
    && (forall i, k | 0 <= i < k < |invoices| :: invoices[i].source != invoices[k].source)
    && (forall inv | inv in invoices :: BillAddsUp(inv.subtotal, inv.discount, inv.total, inv.lines))
  }

  lemma OfYearPush(invoices: seq<Invoice>, inv: Invoice, year: nat)
    ensures OfYear(invoices + [inv], year) == OfYear(invoices, year) + if inv.year == year then [inv] else []
  {
  }

  lemma IssueKeepsInvoices(b: Books, bill: Bill, year: nat)
    requires InvoiceInv(b.invoices, b.counters) && BillAddsUp(bill.subtotal, bill.discount, bill.total, bill.lines)
    ensures InvoiceInv(IssueInvoice(b, bill, year).invoices, IssueInvoice(b, bill, year).counters)
    ensures forall s :: HasInvoice(IssueInvoice(b, bill, year).invoices, s) <==>
            HasInvoice(b.invoices, s) || s == bill.source
    ensures IssueInvoice(b, bill, year).journals == b.journals
    ensures HasInvoice(b.invoices, bill.source) ==> IssueInvoice(b, bill, year) == b
  {
    var after := IssueInvoice(b, bill, year);
    if after != b {
      var n := Last(b.counters, year) + 1;
      var inv := NewInvoice(bill, year, n);
      forall y: nat ensures Gapless(after.invoices, after.counters, y) {
        assert Gapless(b.invoices, b.counters, y);
        OfYearPush(b.invoices, inv, y);
      }
      forall i | 0 <= i < |b.invoices| ensures b.invoices[i].source != bill.source {
        assert b.invoices[i] in b.invoices;
      }
      forall s ensures HasInvoice(after.invoices, s) <==> HasInvoice(b.invoices, s) || s == bill.source {
        assert inv in after.invoices;
        if HasInvoice(b.invoices, s) {
          var x :| x in b.invoices && x.source == s;
          assert x in after.invoices;
        }
      }
    }
  }

  lemma {:induction false} OfYearVoid(invoices: seq<Invoice>, source: Source, year: nat)
    ensures var r := OfYear(VoidInvoices(invoices, source), year);
            && |r| == |OfYear(invoices, year)|
            && forall k | 0 <= k < |r| :: r[k].number == OfYear(invoices, year)[k].number
  {
    if invoices != [] {
      var rest := invoices[..|invoices| - 1];
      OfYearVoid(rest, source, year);
      assert VoidInvoices(invoices, source)[..|rest|] == VoidInvoices(rest, source);
    }
  }

  /** Voiding an invoice never frees or changes a number, a source or an amount. */
  lemma VoidKeepsInvoices(b: Books, source: Source)
    requires InvoiceInv(b.invoices, b.counters)
    ensures InvoiceInv(VoidInvoices(b.invoices, source), b.counters)
    ensures forall s :: HasInvoice(VoidInvoices(b.invoices, source), s) <==> HasInvoice(b.invoices, s)
  {
    var after := VoidInvoices(b.invoices, source);
    forall y: nat ensures Gapless(after, b.counters, y) {
      assert Gapless(b.invoices, b.counters, y);
      OfYearVoid(b.invoices, source, y);
    }
    forall s ensures HasInvoice(after, s) <==> HasInvoice(b.invoices, s) {
      if HasInvoice(b.invoices, s) {
        var i :| 0 <= i < |b.invoices| && b.invoices[i].source == s;
        assert after[i] in after;
      }
      if HasInvoice(after, s) {
        var i :| 0 <= i < |after| && after[i].source == s;
        assert b.invoices[i] in b.invoices;
      }
    }
  }

  /** No two invoices, of any years, carry the same number. */
  lemma NumbersAreUnique(b: Books, i: nat, k: nat)
    requires InvoiceInv(b.invoices, b.counters)
    requires i < k < |b.invoices|
    ensures b.invoices[i].number != b.invoices[k].number
  {
    var inv, other := b.invoices[i], b.invoices[k];
    var p := Position(b.invoices, i);
    var q := Position(b.invoices, k);
    assert Gapless(b.invoices, b.counters, inv.year) && Gapless(b.invoices, b.counters, other.year);
    if inv.number == other.number {
      NumbersPrintApart(inv.year, p + 1, other.year, q + 1);
      PositionsDiffer(b.invoices, i, k);
    }
  }

  /** How many earlier invoices share the year of invoice i. */
  function Position(invoices: seq<Invoice>, i: nat): (p: nat)
    requires i < |invoices|
    ensures p < |OfYear(invoices, invoices[i].year)| && OfYear(invoices, invoices[i].year)[p] == invoices[i]
    ensures p == |OfYear(invoices[..i], invoices[i].year)|
  {
    PrefixOfYear(invoices, i, invoices[i].year);
    |OfYear(invoices[..i], invoices[i].year)|
  }

  lemma {:induction false} PrefixOfYear(invoices: seq<Invoice>, i: nat, year: nat)
    requires i < |invoices| && invoices[i].year == year
    ensures OfYear(invoices[..i], year) + [invoices[i]] <= OfYear(invoices, year)
    decreases |invoices|
  {
    var rest := invoices[..|invoices| - 1];
    if i < |rest| {
      PrefixOfYear(rest, i, year);
      assert rest[..i] == invoices[..i];
    }
  }

  lemma PositionsDiffer(invoices: seq<Invoice>, i: nat, k: nat)
    requires i < k < |invoices| && invoices[i].year == invoices[k].year
    ensures Position(invoices, i) < Position(invoices, k)
  {
    PrefixOfYear(invoices[..k], i, invoices[i].year);
    assert invoices[..k][..i] == invoices[..i];
  }
}
