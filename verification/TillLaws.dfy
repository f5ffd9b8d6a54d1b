/** What the subscription payment protocol keeps under every interleaving of its steps. */
module TillLaws {
  import opened Sums
  import opened Ledger
  import opened Invoices
  import opened Coupons
  import opened Subscriptions
  import opened Shop
  import opened MarketSteps
  import opened MarketLaws
  import opened TillSteps

  // ---- what the journals of a payment amount to ----

  function PayKeyNet(pay: Pay, k: Key, a: Account): int
    decreases k.kind
  {
    match k.kind
    case RefundOf(reversed) => -PayKeyNet(pay, Key(reversed, k.source), a)
    case SubscriptionPayment =>
      if k.source.OfPayment? && k.source.payment < |pay.payments|
      then TransferNet(GatewayBkash, RevenueSubs, pay.payments[k.source.payment].amount, a) else 0
    case _ => 0
  }

  function PayNet(pay: Pay): (Key, Account) -> int {
    (k: Key, a: Account) => PayKeyNet(pay, k, a)
  }

  // ---- invariants ----

  /** One payment row and what arose from it: revenue, reversal, invoice, refund row. */
  predicate PaymentOK(pm: Payment, posted: bool, reversed: bool, invoiced: bool, refundRow: bool) {
    var granted := pm.subscription.Some?;
    && posted == granted && invoiced == granted
    && (pm.status == Completed ==> granted)
    && (granted ==> pm.amount >= 0 && (pm.status == Completed || pm.status == Refunded))
    && reversed == (pm.status == Refunded && granted)
    && (pm.status == Refunded ==> refundRow)
  }

  ghost predicate PaymentsOK(keys: set<Key>, invoices: seq<Invoice>, payments: seq<Payment>, refunded: set<nat>) {
    forall p: nat | p < |payments| ::
      PaymentOK(payments[p], SubKey(p) in keys, SubRefundKey(p) in keys, HasInvoice(invoices, OfPayment(p)),
                p in refunded)
  }

  /** A subscription row names at most one payment, its user's, and that payment points back. */
  predicate RowOK(r: Row, u: nat, k: nat, payments: seq<Payment>) {
    r.origin.Some? ==>
      var p := r.origin.value;
      p < |payments| && payments[p].user == u && payments[p].subscription == Some(k)
  }

  /** The row a payment points at exists and names the payment. */
  predicate OwnerOK(pm: Payment, p: nat, accounts: seq<Subscriber>) {
    pm.subscription.Some? ==>
      var k := pm.subscription.value;
      pm.user < |accounts| && k < |accounts[pm.user].rows| && accounts[pm.user].rows[k].origin == Some(p)
  }

  /** Rows and payments name each other one to one: a payment has one subscription, or none. */
  ghost predicate OriginsOK(accounts: seq<Subscriber>, payments: seq<Payment>) {
    && (forall u: nat, k: nat | u < |accounts| && k < |accounts[u].rows| :: RowOK(accounts[u].rows[k], u, k, payments))
    && (forall p: nat | p < |payments| :: OwnerOK(payments[p], p, accounts))
  }

  /** bKash reported the payment completed, with the charged amount or with none it could read. */
  predicate Confirmed(reports: set<(nat, Option<int>)>, p: nat, amount: int) {
    (p, None) in reports || (p, Some(amount)) in reports
  }

  ghost predicate EvidenceOK(pay: Pay) {
    && |pay.gateway| == |pay.payments|
    && (forall r | r in pay.reports ::
          r.0 < |pay.gateway| && pay.gateway[r.0].MoneyTaken? && (r.1.None? || r.1 == pay.gateway[r.0].amount))
    && (forall p: nat | p < |pay.payments| && pay.payments[p].subscription.Some? ::
          Confirmed(pay.reports, p, pay.payments[p].amount))
  }

  ghost predicate RefsOK(pay: Pay) {
    && (forall p | 0 <= p < |pay.payments| ::
          pay.payments[p].user < |pay.accounts| && pay.payments[p].plan < |pay.plans|
          && (pay.payments[p].coupon.Some? ==> pay.payments[p].coupon.value < |pay.coupons|))
    && (forall k | 0 <= k < |pay.checkouts| ::
          pay.checkouts[k].user < |pay.accounts| && pay.checkouts[k].plan < |pay.plans|
          && (pay.checkouts[k].coupon.Some? ==> pay.checkouts[k].coupon.value < |pay.coupons|))
  }

  ghost predicate PayKeysKnown(keys: set<Key>, invoices: seq<Invoice>, payments: nat) {
    && (forall k | k in keys && k.source.OfPayment? :: k.source.payment < payments)
    && (forall p: nat | HasInvoice(invoices, OfPayment(p)) :: p < payments)
  }

  /** What holds of the books alone, whatever becomes of the payments: every sale journal moves its
      payment's amount, and only what was booked is reversed. */
  ghost predicate BooksOK(t: Till) {
    var keys := Keys(t.books.journals);
    && LedgerInv(t.books.journals)
    && InvoiceInv(t.books.invoices, t.books.counters)
    && Shaped(t.books.journals, true, PayNet(t.pay))
    && PayKeysKnown(keys, t.books.invoices, |t.pay.payments|)
    && (forall p: nat | SubRefundKey(p) in keys :: SubKey(p) in keys)
  }

  ghost predicate TillInv(t: Till) {
    var keys := Keys(t.books.journals);
    && BooksOK(t)
    && PaymentsOK(keys, t.books.invoices, t.pay.payments, t.pay.refunded)
    && OriginsOK(t.pay.accounts, t.pay.payments)
    && EvidenceOK(t.pay)
    && RefsOK(t.pay)
  }

  /** The row a confirmed payment must not reach: refunded after it had been granted. */
  predicate HitsRefunded(pay: Pay, p: nat) {
    p < |pay.payments| && pay.payments[p].status == Refunded && pay.payments[p].subscription.Some?
  }

  // ---- rows and payments ----

  /** A user's rows keep their origins, and new ones come from no payment. */
  lemma OriginsStay(accounts: seq<Subscriber>, payments: seq<Payment>, u: nat, acc: Subscriber)
    requires OriginsOK(accounts, payments) && u < |accounts|
    requires |accounts[u].rows| <= |acc.rows|
    requires forall k | 0 <= k < |accounts[u].rows| :: acc.rows[k].origin == accounts[u].rows[k].origin
    requires forall k | |accounts[u].rows| <= k < |acc.rows| :: acc.rows[k].origin == None
    ensures OriginsOK(accounts[u := acc], payments)
  {
    var after := accounts[u := acc];
    forall v: nat, k: nat | v < |after| && k < |after[v].rows| ensures RowOK(after[v].rows[k], v, k, payments) {
      if k < |accounts[v].rows| {
        assert RowOK(accounts[v].rows[k], v, k, payments);
      }
    }
    forall p: nat | p < |payments| ensures OwnerOK(payments[p], p, after) {
      assert OwnerOK(payments[p], p, accounts);
    }
  }

  lemma OriginsIgnoreStatus(accounts: seq<Subscriber>, payments: seq<Payment>, p: nat, pm: Payment)
    requires OriginsOK(accounts, payments) && p < |payments|
    requires pm.user == payments[p].user && pm.subscription == payments[p].subscription
    ensures OriginsOK(accounts, payments[p := pm])
  {
  }

  lemma NewPaymentOrigins(accounts: seq<Subscriber>, payments: seq<Payment>, pm: Payment)
    requires OriginsOK(accounts, payments) && pm.subscription.None?
    ensures OriginsOK(accounts, payments + [pm])
  {
  }

  // ---- shape ----

  lemma PayShapeStays(journals: seq<Journal>, invoices: seq<Invoice>, before: Pay, after: Pay)
    requires Shaped(journals, true, PayNet(before))
    requires PayKeysKnown(Keys(journals), invoices, |before.payments|)
    requires |before.payments| <= |after.payments|
    requires forall p | 0 <= p < |before.payments| :: after.payments[p].amount == before.payments[p].amount
    ensures Shaped(journals, true, PayNet(after))
  {
    forall j, a | j in journals && j.key.source.OfPayment? == true
      ensures Net(j.entries, a) == PayNet(after)(j.key, a)
    {
      assert j.key in Keys(journals);
      PayKeyNetStays(before, after, j.key, a);
      assert Net(j.entries, a) == PayNet(before)(j.key, a);
    }
  }

  lemma {:induction false} PayKeyNetStays(before: Pay, after: Pay, k: Key, a: Account)
    requires k.source.OfPayment? ==> k.source.payment < |before.payments|
    requires |before.payments| <= |after.payments|
    requires forall p | 0 <= p < |before.payments| :: after.payments[p].amount == before.payments[p].amount
    ensures PayKeyNet(after, k, a) == PayKeyNet(before, k, a)
    decreases k.kind
  {
    if k.kind.RefundOf? {
      PayKeyNetStays(before, after, Key(k.kind.reversed, k.source), a);
    }
  }

  lemma PayNetNegates(pay: Pay)
    ensures RefundsNegate(PayNet(pay))
  {
  }

  // ---- checkout ----

  lemma BeginKeepsTill(t: Till, user: nat, plan: nat, coupon: Option<nat>, now: int)
    requires TillInv(t)
    ensures TillInv(t.(pay := BeginCheckout(t.pay, user, plan, coupon, now)))
  {
    var pay, after := t.pay, BeginCheckout(t.pay, user, plan, coupon, now);
    if after != pay {
      PayShapeStays(t.books.journals, t.books.invoices, pay, after);
    }
  }

  lemma AbortKeepsTill(t: Till, k: nat)
    requires TillInv(t)
    ensures TillInv(t.(pay := AbortCheckout(t.pay, k)))
  {
    var pay, after := t.pay, AbortCheckout(t.pay, k);
    if after != pay {
      PayShapeStays(t.books.journals, t.books.invoices, pay, after);
    }
  }

  lemma PersistKeepsTill(t: Till, k: nat, now: int)
    requires TillInv(t)
    ensures TillInv(t.(pay := PersistCheckout(t.pay, k, now)))
  {
    var pay, after := t.pay, PersistCheckout(t.pay, k, now);
    if after != pay {
      var n, keys := |pay.payments|, Keys(t.books.journals);
      PayShapeStays(t.books.journals, t.books.invoices, pay, after);
      NewPaymentOrigins(pay.accounts, pay.payments, after.payments[n]);
      assert SubKey(n) !in keys && SubRefundKey(n) !in keys && !HasInvoice(t.books.invoices, OfPayment(n));
      forall p: nat | p < |after.payments|
        ensures PaymentOK(after.payments[p], SubKey(p) in keys, SubRefundKey(p) in keys,
                          HasInvoice(t.books.invoices, OfPayment(p)), p in pay.refunded)
      {
        assert p < n ==> PaymentOK(pay.payments[p], SubKey(p) in keys, SubRefundKey(p) in keys,
                                   HasInvoice(t.books.invoices, OfPayment(p)), p in pay.refunded);
      }
    }
  }

  // ---- the gateway ----

  lemma GatewayKeepsTill(t: Till, p: nat, amount: Option<int>)
    requires TillInv(t)
    ensures TillInv(t.(pay := PayAtGateway(t.pay, p, amount)))
  {
    PayShapeStays(t.books.journals, t.books.invoices, t.pay, PayAtGateway(t.pay, p, amount));
  }

  lemma AnswerKeepsTill(t: Till, p: nat, readable: bool)
    requires TillInv(t)
    ensures TillInv(t.(pay := AnswerCompleted(t.pay, p, readable)))
  {
    PayShapeStays(t.books.journals, t.books.invoices, t.pay, AnswerCompleted(t.pay, p, readable));
  }

  // ---- closing ----

  lemma CloseKeepsTill(t: Till, p: nat, to: TxStatus)
    requires TillInv(t) && (to == Failed || to == Abandoned)
    ensures TillInv(t.(pay := Close(t.pay, p, to)))
  {
    var pay, after := t.pay, Close(t.pay, p, to);
    if p < |pay.payments| && pay.payments[p].status == Initiated {
      var pm := after.payments[p];
      PayShapeStays(t.books.journals, t.books.invoices, pay, after);
      PaymentChanges(t, p, pm);
    }
  }

  /** A payment row with no subscription moves to another status without one. */
  lemma PaymentChanges(t: Till, p: nat, pm: Payment)
    requires TillInv(t) && p < |t.pay.payments|
    requires pm.subscription.None? && t.pay.payments[p].subscription.None?
    requires pm.user == t.pay.payments[p].user
    requires pm.status != Completed && pm.status != Initiated && pm.status != Refunded
    ensures PaymentsOK(Keys(t.books.journals), t.books.invoices, t.pay.payments[p := pm], t.pay.refunded)
    ensures OriginsOK(t.pay.accounts, t.pay.payments[p := pm])
  {
    var keys, after := Keys(t.books.journals), t.pay.payments[p := pm];
    forall q: nat | q < |after|
      ensures PaymentOK(after[q], SubKey(q) in keys, SubRefundKey(q) in keys,
                        HasInvoice(t.books.invoices, OfPayment(q)), q in t.pay.refunded)
    {
      assert PaymentOK(t.pay.payments[q], SubKey(q) in keys, SubRefundKey(q) in keys,
                       HasInvoice(t.books.invoices, OfPayment(q)), q in t.pay.refunded);
    }
    OriginsIgnoreStatus(t.pay.accounts, t.pay.payments, p, pm);
  }

  // ---- settling ----

  lemma SaleFacts(t: Till, p: nat, year: nat)
    requires BooksOK(t) && p < |t.pay.payments|
    requires RecordSubscriptionPayment(t.books, p, t.pay.payments[p], year).Some?
    ensures var b := RecordSubscriptionPayment(t.books, p, t.pay.payments[p], year).value;
            && LedgerInv(b.journals) && InvoiceInv(b.invoices, b.counters) && Shaped(b.journals, true, PayNet(t.pay))
            && Keys(b.journals) == Keys(t.books.journals) + {SubKey(p)}
            && OnlyAdds(t.books.journals, b.journals, OfPayment(p))
            && (forall s :: HasInvoice(b.invoices, s) <==> HasInvoice(t.books.invoices, s) || s == OfPayment(p))
    ensures t.pay.payments[p].amount >= 0
  {
    var pm := t.pay.payments[p];
    var lines := SaleLines(pm);
    assert Sound(lines);
    assert lines[0] in lines;
    forall a ensures Net(lines, a) == PayNet(t.pay)(SubKey(p), a) {
      TransferFacts(GatewayBkash, RevenueSubs, pm.amount, a);
    }
    PostKeepsLedger(t.books.journals, SubKey(p), lines);
    PostKeepsShape(t.books.journals, SubKey(p), lines, true, PayNet(t.pay));
    var bill := SaleBill(p, pm);
    assert bill.lines[..0] == [];
    IssueKeepsInvoices(t.books.(journals := Post(t.books.journals, SubKey(p), lines)), bill, year);
  }

  lemma FlagKeepsTill(t: Till, p: nat)
    requires TillInv(t) && p < |t.pay.payments|
    requires t.pay.payments[p].status != Completed && !HitsRefunded(t.pay, p)
    ensures TillInv(t.(pay := WithPayment(t.pay, p, t.pay.payments[p].(status := NeedsReview))))
  {
    var pay, pm := t.pay, t.pay.payments[p].(status := NeedsReview);
    var after := WithPayment(pay, p, pm);
    var keys := Keys(t.books.journals);
    assert PaymentOK(pay.payments[p], SubKey(p) in keys, SubRefundKey(p) in keys,
                     HasInvoice(t.books.invoices, OfPayment(p)), p in pay.refunded);
    PayShapeStays(t.books.journals, t.books.invoices, pay, after);
    PaymentChanges(t, p, pm);
  }

  lemma GrantOriginsOK(pay: Pay, p: nat, now: int)
    requires OriginsOK(pay.accounts, pay.payments) && RefsOK(pay)
    requires p < |pay.payments| && pay.payments[p].subscription.None?
    ensures OriginsOK(Granting(pay, p, now).accounts, Granting(pay, p, now).payments)
  {
    var after := Granting(pay, p, now);
    var u := pay.payments[p].user;
    forall v: nat, k: nat | v < |after.accounts| && k < |after.accounts[v].rows|
      ensures RowOK(after.accounts[v].rows[k], v, k, after.payments)
    {
      if v != u || k < |pay.accounts[u].rows| {
        assert after.accounts[v].rows[k] == pay.accounts[v].rows[k];
        assert RowOK(pay.accounts[v].rows[k], v, k, pay.payments);
      }
    }
    forall q: nat | q < |after.payments| ensures OwnerOK(after.payments[q], q, after.accounts) {
      assert OwnerOK(pay.payments[q], q, pay.accounts);
    }
  }

  lemma GrantPaymentsOK(t: Till, b: Books, p: nat, now: int)
    requires TillInv(t) && p < |t.pay.payments| && t.pay.payments[p].subscription.None? && t.pay.payments[p].amount >= 0
    requires Keys(b.journals) == Keys(t.books.journals) + {SubKey(p)}
    requires forall s :: HasInvoice(b.invoices, s) <==> HasInvoice(t.books.invoices, s) || s == OfPayment(p)
    ensures PaymentsOK(Keys(b.journals), b.invoices, Granting(t.pay, p, now).payments, t.pay.refunded)
  {
  }

  lemma GrantEvidence(pay: Pay, p: nat, amount: Option<int>, now: int)
    requires EvidenceOK(pay) && RefsOK(pay) && p < |pay.payments| && (p, amount) in pay.reports
    requires amount.Some? ==> amount.value == pay.payments[p].amount
    ensures EvidenceOK(Granting(pay, p, now)) && RefsOK(Granting(pay, p, now))
  {
  }

  lemma GrantKeepsTill(t: Till, p: nat, amount: Option<int>, now: int, year: nat)
    requires TillInv(t) && p < |t.pay.payments| && (p, amount) in t.pay.reports
    requires t.pay.payments[p].subscription.None? && (amount.Some? ==> amount.value == t.pay.payments[p].amount)
    requires RecordSubscriptionPayment(t.books, p, t.pay.payments[p], year).Some?
    ensures TillInv(Till(RecordSubscriptionPayment(t.books, p, t.pay.payments[p], year).value, Granting(t.pay, p, now)))
  {
    var b, pay := RecordSubscriptionPayment(t.books, p, t.pay.payments[p], year).value, Granting(t.pay, p, now);
    SaleFacts(t, p, year);
    PayShapeStays(b.journals, b.invoices, t.pay, pay);
    GrantPaymentsOK(t, b, p, now);
    GrantOriginsOK(t.pay, p, now);
    GrantEvidence(t.pay, p, amount, now);
  }

  /** Exactly-once, to the letter: settling on a genuine report keeps the invariant if and only if
      it does not reach a payment that was refunded after being granted. */
  lemma SettleKeepsTillIff(t: Till, p: nat, amount: Option<int>, now: int, year: nat)
    requires TillInv(t) && (p, amount) in t.pay.reports
    ensures TillInv(Settle(t, p, amount, now, year).after) <==> !HitsRefunded(t.pay, p)
  {
    var pm := t.pay.payments[p];
    var keys := Keys(t.books.journals);
    assert PaymentOK(pm, SubKey(p) in keys, SubRefundKey(p) in keys, HasInvoice(t.books.invoices, OfPayment(p)),
                     p in t.pay.refunded);
    if HitsRefunded(t.pay, p) {
      SecondGrantBreaks(t, p, amount, now, year);
    } else if pm.status != Completed {
      FlagKeepsTill(t, p);
      if (amount.Some? ==> amount.value == pm.amount) && RecordSubscriptionPayment(t.books, p, pm, year).Some? {
        GrantKeepsTill(t, p, amount, now, year);
      }
    }
  }

  lemma SecondGrantBreaks(t: Till, p: nat, amount: Option<int>, now: int, year: nat)
    requires TillInv(t) && (p, amount) in t.pay.reports && HitsRefunded(t.pay, p)
    ensures !TillInv(Settle(t, p, amount, now, year).after)
  {
    var pm := t.pay.payments[p];
    var after := Settle(t, p, amount, now, year).after;
    var keys := Keys(t.books.journals);
    assert PaymentOK(pm, SubKey(p) in keys, SubRefundKey(p) in keys, HasInvoice(t.books.invoices, OfPayment(p)),
                     p in t.pay.refunded);
    if amount.Some? && amount.value != pm.amount {
      assert !PaymentOK(after.pay.payments[p], SubKey(p) in keys, SubRefundKey(p) in keys,
                        HasInvoice(t.books.invoices, OfPayment(p)), p in t.pay.refunded);
    } else {
      TransferFacts(GatewayBkash, RevenueSubs, pm.amount, RevenueSubs);
      var u, k := pm.user, pm.subscription.value;
      assert after.pay.accounts[u].rows[k] == t.pay.accounts[u].rows[k];
      assert after.pay.accounts[u].rows[k].origin == Some(p);
      assert after.pay.payments[p].subscription == Some(|t.pay.accounts[u].rows|);
    }
  }

  // ---- refunds ----

  lemma ReversedSale(t: Till, p: nat)
    requires BooksOK(t) && p < |t.pay.payments|
    ensures var js := Reverse(t.books.journals, OfPayment(p), {SubscriptionPayment});
            && LedgerInv(js) && Shaped(js, true, PayNet(t.pay))
            && Keys(js) ==
               Keys(t.books.journals) + (if SubKey(p) in Keys(t.books.journals) then {SubRefundKey(p)} else {})
            && OnlyAdds(t.books.journals, js, OfPayment(p))
  {
    var js := t.books.journals;
    assert js[..|js|] == js;
    ReverseFacts(js, |js|, js, OfPayment(p), {SubscriptionPayment});
    if SubKey(p) in Keys(js) {
      var x := KeyOfIndex(js, SubKey(p));
      assert js[x] in js;
    }
    assert RefundKeys(js, OfPayment(p), {SubscriptionPayment}) ==
           if SubKey(p) in Keys(js) then {SubRefundKey(p)} else {};
    PayNetNegates(t.pay);
    ReverseKeepsShape(js, |js|, js, OfPayment(p), {SubscriptionPayment}, true, PayNet(t.pay));
    ReverseOnlyAdds(js, |js|, js, OfPayment(p), {SubscriptionPayment});
  }

  lemma RefundedPaymentsOK(t: Till, p: nat, now: int)
    requires TillInv(t) && p < |t.pay.payments| && t.pay.payments[p].status in {Completed, NeedsReview}
    ensures var after := RefundedPayment(t, p, now);
            PaymentsOK(Keys(after.books.journals), after.books.invoices, after.pay.payments, after.pay.refunded)
  {
    var after, keys := RefundedPayment(t, p, now), Keys(t.books.journals);
    ReversedSale(t, p);
    VoidKeepsInvoices(t.books, OfPayment(p));
    var keys' := Keys(after.books.journals);
    forall q: nat | q < |after.pay.payments|
      ensures PaymentOK(after.pay.payments[q], SubKey(q) in keys', SubRefundKey(q) in keys',
                        HasInvoice(after.books.invoices, OfPayment(q)), q in after.pay.refunded)
    {
      assert PaymentOK(t.pay.payments[q], SubKey(q) in keys, SubRefundKey(q) in keys,
                       HasInvoice(t.books.invoices, OfPayment(q)), q in t.pay.refunded);
    }
  }

  lemma RefundedAccountsOK(t: Till, p: nat, now: int)
    requires TillInv(t) && p < |t.pay.payments|
    ensures OriginsOK(RefundedPayment(t, p, now).pay.accounts, RefundedPayment(t, p, now).pay.payments)
  {
    var pm, after := t.pay.payments[p], RefundedPayment(t, p, now).pay;
    var marked := if pm.subscription.Some? then MarkRefunded(t.pay.accounts[pm.user], pm.subscription.value, now)
                  else t.pay.accounts[pm.user];
    OriginsStay(t.pay.accounts, t.pay.payments, pm.user, Recompute(marked, now));
    OriginsIgnoreStatus(after.accounts, t.pay.payments, p, after.payments[p]);
  }

  lemma RefundedRest(t: Till, p: nat, now: int)
    requires EvidenceOK(t.pay) && RefsOK(t.pay) && p < |t.pay.payments|
    ensures EvidenceOK(RefundedPayment(t, p, now).pay) && RefsOK(RefundedPayment(t, p, now).pay)
  {
  }

  /** A refund that passes its checks always goes through and keeps every invariant. */
  lemma RefundKeepsTill(t: Till, p: nat, reference: string, now: int)
    requires TillInv(t)
    ensures var o := RefundPayment(t, p, reference, now); TillInv(o.after) && o.reply != LedgerRefused
    ensures OnlyAdds(t.books.journals, RefundPayment(t, p, reference, now).after.books.journals, OfPayment(p))
  {
    var after := RefundPayment(t, p, reference, now).after;
    ReversalIsAccepted(t.books.journals, OfPayment(p), {SubscriptionPayment});
    if after != t {
      ReversedSale(t, p);
      VoidKeepsInvoices(t.books, OfPayment(p));
      PayShapeStays(after.books.journals, after.books.invoices, t.pay, after.pay);
      RefundedPaymentsOK(t, p, now);
      RefundedAccountsOK(t, p, now);
      RefundedRest(t, p, now);
    }
  }

  lemma EventKeepsOrigins(acc: Subscriber, e: Timed)
    requires e.event.Granted? ==> e.event.origin == None
    ensures var after := Apply(acc, e);
            && |acc.rows| <= |after.rows|
            && (forall k | 0 <= k < |acc.rows| :: after.rows[k].origin == acc.rows[k].origin)
            && (forall k | |acc.rows| <= k < |after.rows| :: after.rows[k].origin == None)
  {
  }

  /** Admin grants, creations, sweeps and overrides touch no payment and no journal. */
  lemma AccountEventKeepsTill(t: Till, u: nat, e: Timed)
    requires TillInv(t)
    ensures TillInv(t.(pay := AccountEvent(t.pay, u, e)))
  {
    var after := AccountEvent(t.pay, u, e);
    if after != t.pay {
      PayShapeStays(t.books.journals, t.books.invoices, t.pay, after);
      EventKeepsOrigins(t.pay.accounts[u], e);
      var acc := Apply(t.pay.accounts[u], e);
      OriginsStay(t.pay.accounts, t.pay.payments, u, acc);
    }
  }

  // ---- the books alone ----

  /** Steps that write no journal and no invoice keep the books sound. */
  lemma QuietKeepsBooks(books: Books, before: Pay, after: Pay)
    requires BooksOK(Till(books, before)) && |before.payments| <= |after.payments|
    requires forall p | 0 <= p < |before.payments| :: after.payments[p].amount == before.payments[p].amount
    ensures BooksOK(Till(books, after))
  {
    PayShapeStays(books.journals, books.invoices, before, after);
  }

  /** Even a fulfilment that grants a refunded payment again leaves the books sound. */
  lemma SettleKeepsBooks(t: Till, p: nat, amount: Option<int>, now: int, year: nat)
    requires BooksOK(t)
    ensures BooksOK(Settle(t, p, amount, now, year).after)
  {
    var after := Settle(t, p, amount, now, year).after;
    if after.books != t.books {
      SaleFacts(t, p, year);
      PayShapeStays(after.books.journals, after.books.invoices, t.pay, after.pay);
    } else {
      QuietKeepsBooks(t.books, t.pay, after.pay);
    }
  }

  lemma RefundKeepsBooks(t: Till, p: nat, reference: string, now: int)
    requires BooksOK(t)
    ensures BooksOK(RefundPayment(t, p, reference, now).after)
    ensures OnlyAdds(t.books.journals, RefundPayment(t, p, reference, now).after.books.journals, OfPayment(p))
  {
    var after := RefundPayment(t, p, reference, now).after;
    if RefundPayment(t, p, reference, now).reply == Ok {
      ReversedSale(t, p);
      VoidKeepsInvoices(t.books, OfPayment(p));
      PayShapeStays(after.books.journals, after.books.invoices, t.pay, after.pay);
    }
  }
}
