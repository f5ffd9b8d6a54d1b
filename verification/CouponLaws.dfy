/** The use counter of a coupon, over every run: what it counts, that it respects the cap, and that
    handing a use back always finds it above zero. */
module CouponLaws {
  import opened Sums
  import opened Ledger
  import opened Invoices
  import opened Coupons
  import opened Subscriptions
  import opened Shop
  import opened MarketSteps
  import opened MarketLaws
  import opened TillSteps
  import opened TillLaws
  import opened Engine

  function CheckoutUse(c: nat): Checkout -> int {
    (k: Checkout) => if k.open && k.coupon == Some(c) then 1 else 0
  }

  /** Payment p has a use of coupon c reserved. */
  predicate Reserves(pay: Pay, c: nat, p: nat) {
    p < |pay.payments| && pay.payments[p].coupon == Some(c) && pay.payments[p].reserved
  }

  /** A payment holds the use it reserved unless it was refunded together with its subscription. */
  function PaymentUse(pay: Pay, c: nat): nat -> int {
    (p: nat) => if Reserves(pay, c, p) && !HitsRefunded(pay, p) then 1 else 0
  }

  function UsesHeld(pay: Pay, c: nat): int {
    SumBy(pay.checkouts, CheckoutUse(c)) + SumTo(|pay.payments|, PaymentUse(pay, c))
  }

  /** The counter keeps the use of a payment until its sale is reversed. */
  function CountedUse(pay: Pay, keys: set<Key>, c: nat): nat -> int {
    (p: nat) => if Reserves(pay, c, p) && SubRefundKey(p) !in keys then 1 else 0
  }

  function UsesCounted(pay: Pay, keys: set<Key>, c: nat): int {
    SumBy(pay.checkouts, CheckoutUse(c)) + SumTo(|pay.payments|, CountedUse(pay, keys, c))
  }

  /** A use held again though its sale was reversed, for which nothing was counted again. */
  predicate HeldAgain(t: Till, c: nat, p: nat) {
    Reserves(t.pay, c, p) && SubRefundKey(p) in Keys(t.books.journals) && t.pay.payments[p].status != Refunded
  }

  function AgainUse(t: Till, c: nat): nat -> int {
    (p: nat) => if HeldAgain(t, c, p) then 1 else 0
  }

  // ---- invariant ----

  /** How a payment's reservation hangs together with its revenue, its reversal and its refund row. */
  predicate HoldOK(pm: Payment, posted: bool, reversed: bool, refundRow: bool) {
    && posted == pm.subscription.Some?
    && (reversed ==> posted && refundRow)
    && (posted ==> (pm.status == Completed || refundRow) && pm.reserved == pm.coupon.Some?)
    && (pm.status == Completed ==> posted)
    && (pm.status == Initiated ==> !posted && pm.reserved == pm.coupon.Some?)
    && (pm.status == Refunded ==> refundRow && (posted ==> reversed))
    && (pm.coupon.None? ==> !pm.reserved)
  }

  predicate RowHolds(t: Till, p: nat)
    requires p < |t.pay.payments|
  {
    var keys, pm := Keys(t.books.journals), t.pay.payments[p];
    && HoldOK(pm, SubKey(p) in keys, SubRefundKey(p) in keys, p in t.pay.refunded)
    && (SubKey(p) in keys ==> pm.amount >= 0 && pm.user < |t.pay.accounts| && pm.plan < |t.pay.plans|)
  }

  predicate CounterOK(c: Coupon, counted: int) {
    c.used == counted && (c.maxUses > 0 ==> c.used <= c.maxUses + c.forced)
  }

  ghost predicate CountersOK(t: Till) {
    forall c: nat | c < |t.pay.coupons| ::
      CounterOK(t.pay.coupons[c], UsesCounted(t.pay, Keys(t.books.journals), c))
  }

  ghost predicate CouponInv(t: Till) {
    (forall p: nat | p < |t.pay.payments| :: RowHolds(t, p)) && CountersOK(t)
  }

  // ---- what is counted is there to be handed back ----

  /** The step gives a use of coupon c back. */
  predicate HandsBack(pay: Pay, step: Step, c: nat) {
    match step
    case Abort(k) => k < |pay.checkouts| && pay.checkouts[k].open && pay.checkouts[k].coupon == Some(c)
    case Terminate(p, _) => Reserves(pay, c, p) && pay.payments[p].status == Initiated
    case RefundUser(p, _) =>
      p < |pay.payments| && pay.payments[p].coupon == Some(c) && pay.payments[p].status == Completed
      && p !in pay.refunded
    case _ => false
  }

  lemma {:induction false} CountIsNonNegative(pay: Pay, keys: set<Key>, c: nat)
    ensures UsesCounted(pay, keys, c) >= 0
    ensures forall k | 0 <= k < |pay.checkouts| :: UsesCounted(pay, keys, c) >= CheckoutUse(c)(pay.checkouts[k])
    ensures forall p: nat | p < |pay.payments| :: UsesCounted(pay, keys, c) >= CountedUse(pay, keys, c)(p)
  {
    SumByNonNegative(pay.checkouts, CheckoutUse(c));
    SumToNonNegative(|pay.payments|, CountedUse(pay, keys, c));
    forall k | 0 <= k < |pay.checkouts| ensures UsesCounted(pay, keys, c) >= CheckoutUse(c)(pay.checkouts[k]) {
      SumByAtLeast(pay.checkouts, k, CheckoutUse(c));
    }
    forall p: nat | p < |pay.payments| ensures UsesCounted(pay, keys, c) >= CountedUse(pay, keys, c)(p) {
      SumToAtLeast(|pay.payments|, p, CountedUse(pay, keys, c));
    }
  }

  /** Whoever hands a use back finds the counter above zero: the guard never swallows a release. */
  lemma HeldUseIsCounted(t: Till, step: Step, c: nat)
    requires CouponInv(t) && c < |t.pay.coupons| && HandsBack(t.pay, step, c)
    ensures t.pay.coupons[c].used > 0
  {
    var keys := Keys(t.books.journals);
    CountIsNonNegative(t.pay, keys, c);
    assert CounterOK(t.pay.coupons[c], UsesCounted(t.pay, keys, c));
    if !step.Abort? {
      assert RowHolds(t, step.payment);
      assert CountedUse(t.pay, keys, c)(step.payment) == 1;
    } else {
      assert CheckoutUse(c)(t.pay.checkouts[step.checkout]) == 1;
    }
  }

  // ---- one payment changes ----

  ghost predicate OnlyPayment(before: Till, after: Till, p: nat) {
    var keys, keys' := Keys(before.books.journals), Keys(after.books.journals);
    && |after.pay.payments| == |before.pay.payments| && after.pay.checkouts == before.pay.checkouts
    && |after.pay.accounts| == |before.pay.accounts| && after.pay.plans == before.pay.plans
    && (forall q: nat | q < |before.pay.payments| && q != p :: after.pay.payments[q] == before.pay.payments[q])
    && (forall q: nat | q != p :: SubKey(q) in keys' <==> SubKey(q) in keys)
    && (forall q: nat | q != p :: SubRefundKey(q) in keys' <==> SubRefundKey(q) in keys)
    && (forall q: nat | q != p :: q in after.pay.refunded <==> q in before.pay.refunded)
  }

  lemma CountAfter(before: Till, after: Till, p: nat, c: nat)
    requires OnlyPayment(before, after, p) && p < |before.pay.payments|
    ensures var keys, keys' := Keys(before.books.journals), Keys(after.books.journals);
            UsesCounted(after.pay, keys', c) ==
            UsesCounted(before.pay, keys, c) - CountedUse(before.pay, keys, c)(p) + CountedUse(after.pay, keys', c)(p)
  {
    var f := CountedUse(before.pay, Keys(before.books.journals), c);
    var g := CountedUse(after.pay, Keys(after.books.journals), c);
    SumToUpdate(|before.pay.payments|, f, g, p);
  }

  /** The changed row still holds together, and the counters move by what it holds more or less. */
  lemma PaymentStep(before: Till, after: Till, p: nat)
    requires CouponInv(before) && OnlyPayment(before, after, p) && p < |before.pay.payments|
    requires RowHolds(after, p) && |after.pay.coupons| == |before.pay.coupons|
    requires forall c: nat | c < |before.pay.coupons| ::
               var f := CountedUse(before.pay, Keys(before.books.journals), c);
               var g := CountedUse(after.pay, Keys(after.books.journals), c);
               CounterMoves(before.pay.coupons[c], after.pay.coupons[c], g(p) - f(p))
    ensures CouponInv(after)
  {
    forall q: nat | q < |after.pay.payments| ensures RowHolds(after, q) {
      assert RowHolds(before, q);
    }
    forall c: nat | c < |after.pay.coupons|
      ensures CounterOK(after.pay.coupons[c], UsesCounted(after.pay, Keys(after.books.journals), c))
    {
      assert CounterOK(before.pay.coupons[c], UsesCounted(before.pay, Keys(before.books.journals), c));
      CountAfter(before, after, p, c);
    }
  }

  /** A counter moves by one use at most, upwards only with a use forced past the cap. */
  predicate CounterMoves(before: Coupon, after: Coupon, delta: int) {
    && after.maxUses == before.maxUses && after.used == before.used + delta
    && (after.forced as int - before.forced >= delta) && after.forced >= before.forced
  }

  // ---- every step ----

  lemma BeginCounts(t: Till, user: nat, plan: nat, coupon: Option<nat>, now: int)
    requires CouponInv(t)
    ensures CouponInv(t.(pay := BeginCheckout(t.pay, user, plan, coupon, now)))
  {
    var pay, after := t.pay, BeginCheckout(t.pay, user, plan, coupon, now);
    if after != pay {
      var keys := Keys(t.books.journals);
      SamePayments(t, t.(pay := after));
      forall c: nat | c < |after.coupons| ensures CounterOK(after.coupons[c], UsesCounted(after, keys, c)) {
        assert CounterOK(pay.coupons[c], UsesCounted(pay, keys, c));
        SumByPush(pay.checkouts, after.checkouts[|pay.checkouts|], CheckoutUse(c));
        SumToSame(|pay.payments|, CountedUse(pay, keys, c), CountedUse(after, keys, c));
      }
    }
  }

  lemma SamePayments(before: Till, after: Till)
    requires CouponInv(before) && after.pay.payments == before.pay.payments && after.pay.refunded == before.pay.refunded
    requires |after.pay.accounts| == |before.pay.accounts| && after.pay.plans == before.pay.plans
    requires forall k: Key | k.source.OfPayment? ::
               k in Keys(after.books.journals) <==> k in Keys(before.books.journals)
    ensures forall p: nat | p < |after.pay.payments| :: RowHolds(after, p)
  {
    forall p: nat | p < |after.pay.payments| ensures RowHolds(after, p) {
      assert RowHolds(before, p);
    }
  }

  /** Steps that touch neither payments, checkouts, coupons nor the journals of payments. */
  lemma OutsideCounts(before: Till, after: Till)
    requires CouponInv(before) && after.pay.payments == before.pay.payments && after.pay.refunded == before.pay.refunded
    requires after.pay.checkouts == before.pay.checkouts && after.pay.coupons == before.pay.coupons
    requires |after.pay.accounts| == |before.pay.accounts| && after.pay.plans == before.pay.plans
    requires forall k: Key | k.source.OfPayment? ::
               k in Keys(after.books.journals) <==> k in Keys(before.books.journals)
    ensures CouponInv(after)
  {
    SamePayments(before, after);
    var keys, keys' := Keys(before.books.journals), Keys(after.books.journals);
    forall c: nat | c < |after.pay.coupons| ensures CounterOK(after.pay.coupons[c], UsesCounted(after.pay, keys', c)) {
      assert CounterOK(before.pay.coupons[c], UsesCounted(before.pay, keys, c));
      SumToSame(|before.pay.payments|, CountedUse(before.pay, keys, c), CountedUse(after.pay, keys', c));
    }
  }

  lemma AbortCounts(t: Till, k: nat)
    requires CouponInv(t)
    ensures CouponInv(t.(pay := AbortCheckout(t.pay, k)))
  {
    var pay, after := t.pay, AbortCheckout(t.pay, k);
    if k < |pay.checkouts| && pay.checkouts[k].open {
      var keys := Keys(t.books.journals);
      SamePayments(t, t.(pay := after));
      forall c: nat | c < |after.coupons| ensures CounterOK(after.coupons[c], UsesCounted(after, keys, c)) {
        assert CounterOK(pay.coupons[c], UsesCounted(pay, keys, c));
        SumByUpdate(pay.checkouts, k, after.checkouts[k], CheckoutUse(c));
        SumToSame(|pay.payments|, CountedUse(pay, keys, c), CountedUse(after, keys, c));
        if pay.checkouts[k].coupon == Some(c) {
          HeldUseIsCounted(t, Abort(k), c);
        }
      }
    }
  }

  lemma PersistCounts(t: Till, k: nat, now: int)
    requires BooksOK(t) && CouponInv(t)
    ensures CouponInv(t.(pay := PersistCheckout(t.pay, k, now)))
  {
    var pay, after := t.pay, PersistCheckout(t.pay, k, now);
    if k < |pay.checkouts| && pay.checkouts[k].open {
      var n, keys := |pay.payments|, Keys(t.books.journals);
      assert SubKey(n) !in keys && SubRefundKey(n) !in keys;
      forall p: nat | p < |after.payments| ensures RowHolds(t.(pay := after), p) {
        assert p < n ==> RowHolds(t, p);
      }
      forall c: nat | c < |after.coupons| ensures CounterOK(after.coupons[c], UsesCounted(after, keys, c)) {
        assert CounterOK(pay.coupons[c], UsesCounted(pay, keys, c));
        SumByUpdate(pay.checkouts, k, after.checkouts[k], CheckoutUse(c));
        SumToSame(n, CountedUse(pay, keys, c), CountedUse(after, keys, c));
      }
    }
  }

  lemma CloseCounts(t: Till, p: nat, to: TxStatus)
    requires CouponInv(t) && (to == Failed || to == Abandoned)
    ensures CouponInv(t.(pay := Close(t.pay, p, to)))
  {
    var after := t.(pay := Close(t.pay, p, to));
    if p < |t.pay.payments| && t.pay.payments[p].status == Initiated {
      assert RowHolds(t, p);
      var pm := t.pay.payments[p];
      if pm.coupon.Some? && pm.coupon.value < |t.pay.coupons| {
        HeldUseIsCounted(t, Terminate(p, to), pm.coupon.value);
      }
      PaymentStep(t, after, p);
    }
  }

  lemma FlagCounts(t: Till, p: nat)
    requires CouponInv(t) && p < |t.pay.payments| && t.pay.payments[p].status != Completed
    ensures CouponInv(t.(pay := WithPayment(t.pay, p, t.pay.payments[p].(status := NeedsReview))))
  {
    assert RowHolds(t, p);
    PaymentStep(t, t.(pay := WithPayment(t.pay, p, t.pay.payments[p].(status := NeedsReview))), p);
  }

  lemma GrantOnly(t: Till, b: Books, p: nat, now: int)
    requires p < |t.pay.payments| && Keys(b.journals) == Keys(t.books.journals) + {SubKey(p)}
    requires t.pay.payments[p].user < |t.pay.accounts| && t.pay.payments[p].plan < |t.pay.plans|
    ensures OnlyPayment(t, Till(b, Granting(t.pay, p, now)), p)
  {
  }

  /** Granting forces a use only for a payment that lost its own; one whose sale was reversed has its
      reservation still, and nothing is counted again. */
  lemma GrantMoves(t: Till, b: Books, p: nat, now: int)
    requires p < |t.pay.payments| && RowHolds(t, p) && t.pay.payments[p].status != Completed
    requires Keys(b.journals) == Keys(t.books.journals) + {SubKey(p)} && t.pay.payments[p].amount >= 0
    requires t.pay.payments[p].user < |t.pay.accounts| && t.pay.payments[p].plan < |t.pay.plans|
    ensures var after := Till(b, Granting(t.pay, p, now));
            && RowHolds(after, p) && |after.pay.coupons| == |t.pay.coupons|
            && forall c: nat | c < |t.pay.coupons| ::
                 var f := CountedUse(t.pay, Keys(t.books.journals), c);
                 var g := CountedUse(after.pay, Keys(b.journals), c);
                 CounterMoves(t.pay.coupons[c], after.pay.coupons[c], g(p) - f(p))
  {
  }

  lemma GrantCounts(t: Till, p: nat, now: int, year: nat)
    requires BooksOK(t) && CouponInv(t) && p < |t.pay.payments| && t.pay.payments[p].status != Completed
    requires t.pay.payments[p].user < |t.pay.accounts| && t.pay.payments[p].plan < |t.pay.plans|
    requires RecordSubscriptionPayment(t.books, p, t.pay.payments[p], year).Some?
    ensures var b := RecordSubscriptionPayment(t.books, p, t.pay.payments[p], year).value;
            CouponInv(Till(b, Granting(t.pay, p, now)))
  {
    var b := RecordSubscriptionPayment(t.books, p, t.pay.payments[p], year).value;
    SaleFacts(t, p, year);
    GrantOnly(t, b, p, now);
    GrantMoves(t, b, p, now);
    PaymentStep(t, Till(b, Granting(t.pay, p, now)), p);
  }

  lemma SettleCounts(t: Till, p: nat, amount: Option<int>, now: int, year: nat)
    requires BooksOK(t) && CouponInv(t)
    ensures CouponInv(Settle(t, p, amount, now, year).after)
  {
    if p < |t.pay.payments| && t.pay.payments[p].status != Completed {
      var pm := t.pay.payments[p];
      FlagCounts(t, p);
      if pm.user < |t.pay.accounts| && pm.plan < |t.pay.plans|
         && RecordSubscriptionPayment(t.books, p, pm, year).Some?
      {
        GrantCounts(t, p, now, year);
      }
    }
  }

  lemma RefundOnly(t: Till, p: nat, now: int)
    requires BooksOK(t) && p < |t.pay.payments|
    ensures OnlyPayment(t, RefundedPayment(t, p, now), p)
    ensures var keys' := Keys(RefundedPayment(t, p, now).books.journals);
            && (SubKey(p) in keys' <==> SubKey(p) in Keys(t.books.journals))
            && (SubRefundKey(p) in keys' <==> SubKey(p) in Keys(t.books.journals))
  {
    ReversedSale(t, p);
  }

  /** Only a completed payment gives its use back, and it always holds one. */
  lemma RefundMoves(t: Till, after: Till, p: nat)
    requires p < |t.pay.payments| && RowHolds(t, p) && p !in t.pay.refunded
    requires t.pay.payments[p].status in {Completed, NeedsReview}
    requires |after.pay.payments| == |t.pay.payments|
    requires after.pay.payments[p] == t.pay.payments[p].(status := Refunded)
    requires var pm := t.pay.payments[p];
             after.pay.coupons == ReleaseIf(t.pay.coupons, pm.coupon, pm.status == Completed)
    requires forall c: nat | c < |t.pay.coupons| && t.pay.payments[p].coupon == Some(c) ::
               t.pay.payments[p].status == Completed ==> t.pay.coupons[c].used > 0
    requires p in after.pay.refunded && |after.pay.accounts| == |t.pay.accounts| && after.pay.plans == t.pay.plans
    requires var keys, keys' := Keys(t.books.journals), Keys(after.books.journals);
             && (SubKey(p) in keys' <==> SubKey(p) in keys) && (SubRefundKey(p) in keys' <==> SubKey(p) in keys)
    ensures RowHolds(after, p) && |after.pay.coupons| == |t.pay.coupons|
    ensures forall c: nat | c < |t.pay.coupons| ::
              var f := CountedUse(t.pay, Keys(t.books.journals), c);
              var g := CountedUse(after.pay, Keys(after.books.journals), c);
              CounterMoves(t.pay.coupons[c], after.pay.coupons[c], g(p) - f(p))
  {
  }

  lemma RefundCounts(t: Till, p: nat, reference: string, now: int)
    requires BooksOK(t) && CouponInv(t)
    ensures CouponInv(RefundPayment(t, p, reference, now).after)
  {
    if RefundPayment(t, p, reference, now).reply == Ok {
      var pm := t.pay.payments[p];
      assert RowHolds(t, p);
      if pm.status == Completed && pm.coupon.Some? && pm.coupon.value < |t.pay.coupons| {
        HeldUseIsCounted(t, RefundUser(p, reference), pm.coupon.value);
      }
      RefundOnly(t, p, now);
      RefundMoves(t, RefundedPayment(t, p, now), p);
      PaymentStep(t, RefundedPayment(t, p, now), p);
    }
  }

  // ---- runs ----

  function TillOf(s: State): Till {
    Till(s.books, s.pay)
  }

  lemma TillCounts(x: Till, t: Tick)
    requires BooksOK(x) && CouponInv(x) && !MarketStep(t.step)
    requires t.step.Terminate? ==> t.step.closed in {Failed, Abandoned}
    ensures CouponInv(TillAfter(x, t))
  {
    match t.step
    case Begin(user, plan, coupon) => BeginCounts(x, user, plan, coupon, t.now);
    case Abort(k) => AbortCounts(x, k);
    case Persist(k) => PersistCounts(x, k, t.now);
    case Fulfil(p, paid) => SettleCounts(x, p, paid, t.now, t.year);
    case Terminate(p, closed) => CloseCounts(x, p, closed);
    case RefundUser(p, reference) => RefundCounts(x, p, reference, t.now);
    case CustomerPays(_, _) => OutsideCounts(x, TillAfter(x, t));
    case BkashAnswers(_, _) => OutsideCounts(x, TillAfter(x, t));
    case OnAccount(_, _) => OutsideCounts(x, TillAfter(x, t));
  }

  lemma StepCounts(s: State, t: Tick)
    requires MoneyInv(s) && CouponInv(TillOf(s))
    ensures CouponInv(TillOf(After(s, t)))
  {
    if t.commits && Possible(s, t.step) {
      if MarketStep(t.step) {
        MarketLeavesTill(Market(s.books, s.shop), t);
        HalfKeptKeys(s.books, After(s, t).books, true);
        OutsideCounts(TillOf(s), TillOf(After(s, t)));
      } else {
        TillCounts(TillOf(s), t);
      }
    }
  }

  lemma {:induction false} EveryRunCounts(s: State, run: seq<Tick>)
    requires MoneyInv(s) && CouponInv(TillOf(s))
    ensures MoneyInv(RunFrom(s, run)) && CouponInv(TillOf(RunFrom(s, run)))
  {
    EveryRunKeepsMoney(s, run);
    if run != [] {
      EveryRunCounts(s, run[..|run| - 1]);
      StepCounts(RunFrom(s, run[..|run| - 1]), run[|run| - 1]);
    }
  }

  lemma FreshCounts(s: State)
    requires Fresh(s)
    ensures MoneyInv(s) && CouponInv(TillOf(s))
  {
    FreshIsFine(s);
  }

  // ---- the counter and the uses held ----

  ghost predicate NoneHeldAgain(t: Till, c: nat) {
    forall p: nat :: !HeldAgain(t, c, p)
  }

  /** The counter is the uses held less those held again after their sale was reversed; so it is exact
      when, and only when, there are none of these. */
  lemma CounterLaw(t: Till, c: nat)
    requires CouponInv(t) && c < |t.pay.coupons|
    ensures t.pay.coupons[c].used == UsesHeld(t.pay, c) - SumTo(|t.pay.payments|, AgainUse(t, c)) >= 0
    ensures t.pay.coupons[c].used == UsesHeld(t.pay, c) <==> NoneHeldAgain(t, c)
  {
    var keys, n := Keys(t.books.journals), |t.pay.payments|;
    assert CounterOK(t.pay.coupons[c], UsesCounted(t.pay, keys, c));
    CountIsNonNegative(t.pay, keys, c);
    forall p: nat | p < n ensures CountedUse(t.pay, keys, c)(p) == PaymentUse(t.pay, c)(p) - AgainUse(t, c)(p) {
      assert RowHolds(t, p);
    }
    SumToDifference(n, CountedUse(t.pay, keys, c), PaymentUse(t.pay, c), AgainUse(t, c));
    if p: nat :| HeldAgain(t, c, p) {
      SumToAtLeast(n, p, AgainUse(t, c));
    } else {
      SumToZero(n, AgainUse(t, c));
    }
  }

  /** A fulfilment that finds its payment refunded after having been granted, with coupon c. */
  predicate RegrantsUse(s: State, t: Tick, c: nat) {
    Regrants(s, t) && s.pay.payments[t.step.payment].coupon == Some(c)
  }

  lemma SettleHoldsAgain(t: Till, x: nat, amount: Option<int>, now: int, year: nat, c: nat, p: nat)
    requires BooksOK(t) && CouponInv(t)
    ensures var after := Settle(t, x, amount, now, year).after;
            HeldAgain(after, c, p) <==>
            HeldAgain(t, c, p) || (x == p && HitsRefunded(t.pay, p) && t.pay.payments[p].coupon == Some(c))
  {
    SettleReverses(t, x, amount, now, year, p);
    if x < |t.pay.payments| {
      assert RowHolds(t, x);
      SaleIsAccepted(t.books, x, t.pay.payments[x], year);
    }
  }

  lemma SettleReverses(t: Till, x: nat, amount: Option<int>, now: int, year: nat, p: nat)
    requires BooksOK(t)
    ensures SubRefundKey(p) in Keys(Settle(t, x, amount, now, year).after.books.journals) <==>
            SubRefundKey(p) in Keys(t.books.journals)
  {
    if Settle(t, x, amount, now, year).after.books != t.books {
      SaleFacts(t, x, year);
    }
  }

  lemma SaleIsAccepted(b: Books, p: nat, pm: Payment, year: nat)
    ensures pm.amount >= 0 ==> RecordSubscriptionPayment(b, p, pm, year).Some?
  {
    if pm.amount >= 0 {
      TransferFacts(GatewayBkash, RevenueSubs, pm.amount, RevenueSubs);
    }
  }

  lemma RefundHoldsAgain(t: Till, x: nat, reference: string, now: int, c: nat, p: nat)
    requires BooksOK(t) && CouponInv(t)
    ensures HeldAgain(RefundPayment(t, x, reference, now).after, c, p) <==> HeldAgain(t, c, p)
  {
    if RefundPayment(t, x, reference, now).reply == Ok {
      assert RowHolds(t, x);
      ReversedSale(t, x);
    }
  }

  /** A use comes to be held again by a fulfilment of its refunded payment, and stays so. */
  lemma StepHoldsAgain(s: State, t: Tick, c: nat, p: nat)
    requires MoneyInv(s) && CouponInv(TillOf(s))
    ensures HeldAgain(TillOf(After(s, t)), c, p) <==>
            HeldAgain(TillOf(s), c, p) || (RegrantsUse(s, t, c) && t.step.payment == p)
  {
    if t.commits && Possible(s, t.step) {
      if MarketStep(t.step) {
        MarketLeavesTill(Market(s.books, s.shop), t);
        HalfKeptKeys(s.books, After(s, t).books, true);
      } else if t.step.Fulfil? {
        SettleHoldsAgain(TillOf(s), t.step.payment, t.step.paid, t.now, t.year, c, p);
      } else if t.step.RefundUser? {
        RefundHoldsAgain(TillOf(s), t.step.payment, t.step.reference, t.now, c, p);
      } else {
        QuietHoldsAgain(TillOf(s), t, c, p);
      }
    }
  }

  lemma QuietHoldsAgain(x: Till, t: Tick, c: nat, p: nat)
    requires BooksOK(x) && CouponInv(x) && !MarketStep(t.step) && !t.step.Fulfil? && !t.step.RefundUser?
    ensures HeldAgain(TillAfter(x, t), c, p) <==> HeldAgain(x, c, p)
  {
    if p < |x.pay.payments| {
      assert RowHolds(x, p);
    }
  }

  ghost predicate NeverRegrantsUse(s: State, run: seq<Tick>, c: nat) {
    forall k | 0 <= k < |run| :: !RegrantsUse(RunFrom(s, run[..k]), run[k], c)
  }

  lemma NeverRegrantsUseStep(s: State, run: seq<Tick>, c: nat)
    requires run != []
    ensures NeverRegrantsUse(s, run, c) <==>
            NeverRegrantsUse(s, run[..|run| - 1], c)
            && !RegrantsUse(RunFrom(s, run[..|run| - 1]), run[|run| - 1], c)
  {
    var rest := run[..|run| - 1];
    assert forall k | 0 <= k < |rest| :: rest[..k] == run[..k] && rest[k] == run[k];
    if NeverRegrantsUse(s, rest, c) && !RegrantsUse(RunFrom(s, rest), run[|run| - 1], c) {
      forall k | 0 <= k < |run| ensures !RegrantsUse(RunFrom(s, run[..k]), run[k], c) {
        assert k < |rest| ==> !RegrantsUse(RunFrom(s, rest[..k]), rest[k], c);
      }
    }
  }

  lemma StepHoldsNoneIff(s: State, t: Tick, c: nat)
    requires MoneyInv(s) && CouponInv(TillOf(s))
    ensures NoneHeldAgain(TillOf(After(s, t)), c) <==> NoneHeldAgain(TillOf(s), c) && !RegrantsUse(s, t, c)
  {
    forall p: nat
      ensures HeldAgain(TillOf(After(s, t)), c, p) <==>
              HeldAgain(TillOf(s), c, p) || (RegrantsUse(s, t, c) && t.step.payment == p)
    {
      StepHoldsAgain(s, t, c, p);
    }
    if RegrantsUse(s, t, c) {
      assert HeldAgain(TillOf(After(s, t)), c, t.step.payment);
    }
  }

  lemma {:induction false} NoneHeldAgainIff(s: State, run: seq<Tick>, c: nat)
    requires Fresh(s)
    ensures NoneHeldAgain(TillOf(RunFrom(s, run)), c) <==> NeverRegrantsUse(s, run, c)
  {
    if run != [] {
      var rest := run[..|run| - 1];
      FreshCounts(s);
      EveryRunCounts(s, rest);
      NoneHeldAgainIff(s, rest, c);
      NeverRegrantsUseStep(s, run, c);
      StepHoldsNoneIff(RunFrom(s, rest), run[|run| - 1], c);
    }
  }

  /** After every run, re-grants included: the counter is the uses held by open checkouts and payments,
      less those of payments granted again after their refund, so it is exact if and only if that never
      happened to a payment of this coupon; it passes the cap only by forced uses; and whoever hands a
      use back finds it above zero. */
  lemma {:induction false} CouponCounterIsUses(s: State, run: seq<Tick>, c: nat)
    requires Fresh(s) && c < |RunFrom(s, run).pay.coupons|
    ensures var t := TillOf(RunFrom(s, run));
            var coupon := t.pay.coupons[c];
            && coupon.used == UsesHeld(t.pay, c) - SumTo(|t.pay.payments|, AgainUse(t, c)) >= 0
            && (coupon.used == UsesHeld(t.pay, c) <==> NeverRegrantsUse(s, run, c))
            && (coupon.maxUses > 0 ==> coupon.used <= coupon.maxUses + coupon.forced)
            && (forall step :: HandsBack(t.pay, step, c) ==> coupon.used > 0)
  {
    var t := TillOf(RunFrom(s, run));
    FreshCounts(s);
    EveryRunCounts(s, run);
    CounterLaw(t, c);
    NoneHeldAgainIff(s, run, c);
    assert CounterOK(t.pay.coupons[c], UsesCounted(t.pay, Keys(t.books.journals), c));
    forall step | HandsBack(t.pay, step, c) ensures t.pay.coupons[c].used > 0 {
      HeldUseIsCounted(t, step, c);
    }
  }
}
