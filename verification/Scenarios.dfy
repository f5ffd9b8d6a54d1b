/** Runs in which the books stay right and the outcome surprises, step by step. */
module Scenarios {
  import opened Sums
  import opened Ledger
  import opened Commission
  import opened Release
  import opened Invoices
  import opened Coupons
  import opened Subscriptions
  import opened Shop
  import opened MarketSteps
  import opened MarketLaws
  import opened TillSteps
  import opened TillLaws
  import opened Engine
  import opened CouponLaws
  import opened ClosedForms
  import opened Safety

  function Now(step: Step): Tick {
    Tick(step, 0, 2024, true)
  }

  function Runs(steps: seq<Step>): seq<Tick> {
    seq(|steps|, k requires 0 <= k < |steps| => Now(steps[k]))
  }

  lemma RunPush(s: State, steps: seq<Step>, step: Step)
    ensures RunFrom(s, Runs(steps + [step])) == After(RunFrom(s, Runs(steps)), Now(step))
  {
    var run := Runs(steps + [step]);
    assert run[..|run| - 1] == Runs(steps);
  }

  function With(s: State, m: Market): State {
    State(m.books, m.shop, s.pay)
  }

  lemma StepIsMarketStep(s: State, step: Step)
    requires MarketStep(step) && Possible(s, step)
    ensures After(s, Now(step)) == With(s, MarketAfter(Market(s.books, s.shop), Now(step)))
  {
  }

  // ---- from confirmation to delivery ----

  /** A payment of order i waits for an answer that bKash has given and that matches. */
  predicate AwaitsFulfilment(shop: Shop, i: nat, x: nat, paid: Option<int>) {
    && i < |shop.orders| && shop.orders[i].status == PendingPayment && shop.orders[i].total >= 0
    && x < |shop.orderTxs| && shop.orderTxs[x].order == i && shop.orderTxs[x].status == Initiated
    && (x, paid) in shop.answers && (paid.Some? ==> paid.value == shop.orderTxs[x].amount)
  }

  /** Booked, and neither released nor refunded. */
  ghost predicate InEscrow(m: Market, i: nat) {
    && MarketInv(m) && i < |m.shop.orders| && m.shop.orders[i].payBy == Bkash
    && PayKey(i) in Keys(m.books.journals) && ReleaseKey(i) !in Keys(m.books.journals) && i !in m.shop.refunded
  }

  /** Fulfilment books the order's total in escrow and marks it paid. */
  lemma Fulfilled(m: Market, i: nat, x: nat, paid: Option<int>, year: nat)
    requires MarketInv(m) && AwaitsFulfilment(m.shop, i, x, paid)
    ensures var after := SettleOrderPayment(m, x, paid, year).after;
            && InEscrow(after, i) && after.shop.merchants == m.shop.merchants
            && after.shop.orders == WithStatus(m.shop, i, Paid).orders
  {
    OrderIsOK(m, i);
    assert TxOK(m.shop.orderTxs[x], Keys(m.books.journals), m.shop.orders);
    RecordFacts(m, i, year);
    SettleKeepsInv(m, x, paid, year);
  }

  /** A paid order that is delivered is released; its payment stays booked. */
  lemma Delivers(m: Market, i: nat, year: nat)
    requires InEscrow(m, i) && m.shop.orders[i].status == Paid && Bookable(m.shop, m.shop.orders[i])
    ensures var moved := Transition(m, i, Delivered).after;
            var done := Deliver(moved, i, year).after;
            && MarketInv(done) && done.shop.orders == WithStatus(m.shop, i, Delivered).orders
            && i !in done.shop.refunded
            && PayKey(i) in Keys(done.books.journals) && ReleaseKey(i) in Keys(done.books.journals)
  {
    TransitionKeepsInv(m, i, Delivered);
    DeliverKeepsInv(Transition(m, i, Delivered).after, i, year);
  }

  // ---- an expiry that comes late ----

  /** An order may be picked as unpaid, then paid, and then cancelled by the pending expiry. The buyer's
      money stays in escrow for a cancelled order until it is refunded. */
  lemma LateExpiryCancelsPaid(s: State, i: nat, x: nat, paid: Option<int>, year: nat)
    requires MoneyInv(s) && AwaitsFulfilment(s.shop, i, x, paid)
    ensures var fulfilled := SettleOrderPayment(Market(s.books, s.shop), x, paid, year).after;
            var expired := With(s, Transition(fulfilled, i, Cancelled).after);
            && expired.shop.orders[i].status == Cancelled && i !in expired.shop.refunded
            && OrderShare(expired, OrdersEscrow)(i) == s.shop.orders[i].total
  {
    Fulfilled(Market(s.books, s.shop), i, x, paid, year);
  }

  /** Whatever happened since the order was picked, only a delivery keeps the expiry from cancelling it. */
  lemma LateExpiryCancelsIff(s: State, run: seq<Tick>, i: nat)
    requires MoneyInv(s) && i < |s.shop.orders|
    ensures var late := RunFrom(s, run);
            && i < |late.shop.orders|
            && (After(late, Now(Move(i, Cancelled))).shop.orders[i].status == Cancelled <==>
                late.shop.orders[i].status != Delivered)
  {
    OrdersRemain(s, run);
  }

  lemma {:induction false} OrdersRemain(s: State, run: seq<Tick>)
    requires MoneyInv(s)
    ensures |s.shop.orders| <= |RunFrom(s, run).shop.orders|
  {
    if run != [] {
      OrdersRemain(s, run[..|run| - 1]);
      EveryRunKeepsMoney(s, run[..|run| - 1]);
      StepKeepsMoney(RunFrom(s, run[..|run| - 1]), run[|run| - 1]);
    }
  }

  // ---- escrow below zero ----

  /** One seller, one product, nothing sold yet. */
  function OpenShop(): Shop {
    Shop([Merchant(false, true, true)], [Product(1, true)], [], [], [], {}, map[], [], {})
  }

  function OpenState(): State {
    State(Books([], [], map[]), OpenShop(), Pay([], [], [], [], [], [], {}, {}))
  }

  /** 100 for the product, -50 for its delivery. */
  function CheapDelivery(): Order {
    Order(0, [Item(0, 0, 1, 100, 10.0)], -50, 50, PendingPayment, Bkash, 0, [])
  }

  /** The order placed, its payment opened, made at bKash and confirmed. */
  function ConfirmedShop(): Shop {
    Shop([Merchant(false, true, true)], [Product(0, true)], [CheapDelivery().(events := [PendingPayment])],
         [OrderTx(0, 50, Initiated, 0)], [], {}, map[], [MoneyTaken(Some(50))], {(0, Some(50))})
  }

  function ConfirmingSteps(): seq<Step> {
    [Place(CheapDelivery()), OpenOrderTx(0), BuyerPays(0, Some(50)), BkashConfirms(0, true)]
  }

  lemma CheapItem()
    ensures var items := CheapDelivery().items;
            && ItemsGross(items) == 100 && Demand(items, 0) == 1 && FirstShort(OpenShop().products, items) == None
            && SharesOk(true, {}, items)
  {
    var items := CheapDelivery().items;
    assert items[..0] == [];
    FitsIffDemandCovered(OpenShop().products, items);
    ReleaseIsSound(true, {}, items);
    ReleaseSoundIff(true, {}, items);
  }

  lemma ItIsPlaced()
    ensures CheckoutOrder(CheapDelivery())
    ensures After(OpenState(), Now(Place(CheapDelivery()))).shop ==
            OpenShop().(products := [Product(0, true)], orders := [CheapDelivery().(events := [PendingPayment])])
  {
    CheapItem();
  }

  lemma ItIsOrdered()
    ensures RunFrom(OpenState(), Runs(ConfirmingSteps()[..2])) ==
            OpenState().(shop := ConfirmedShop().(sessions := [NotYetPaid], answers := {}))
  {
    var steps := ConfirmingSteps();
    assert steps[..0] + [steps[0]] == steps[..1] && steps[..1] + [steps[1]] == steps[..2];
    ItIsPlaced();
    RunPush(OpenState(), steps[..0], steps[0]);
    RunPush(OpenState(), steps[..1], steps[1]);
  }

  lemma BuyAndConfirm(s: State)
    requires s.shop == ConfirmedShop().(sessions := [NotYetPaid], answers := {})
    ensures After(After(s, Now(BuyerPays(0, Some(50)))), Now(BkashConfirms(0, true))) == s.(shop := ConfirmedShop())
  {
    var paid := PayOrderAtGateway(Market(s.books, s.shop), 0, Some(50));
    StepIsMarketStep(s, BuyerPays(0, Some(50)));
    StepIsMarketStep(With(s, paid), BkashConfirms(0, true));
    assert ConfirmOrderPayment(paid, 0, true).shop == ConfirmedShop();
  }

  lemma ItIsConfirmed()
    ensures RunFrom(OpenState(), Runs(ConfirmingSteps())) == OpenState().(shop := ConfirmedShop())
  {
    var steps := ConfirmingSteps();
    assert steps[..2] + [steps[2]] == steps[..3] && steps[..3] + [steps[3]] == steps;
    ItIsOrdered();
    RunPush(OpenState(), steps[..2], steps[2]);
    RunPush(OpenState(), steps[..3], steps[3]);
    BuyAndConfirm(RunFrom(OpenState(), Runs(steps[..2])));
  }

  function NegativeSteps(): seq<Step> {
    ConfirmingSteps() + [SettleOrderTx(0, Some(50))] + [Move(0, Delivered)] + [Step.Release(0)]
  }

  function LastSteps(s: State): State {
    After(After(After(s, Now(SettleOrderTx(0, Some(50)))), Now(Move(0, Delivered))), Now(Step.Release(0)))
  }

  lemma NegativeRun()
    ensures RunFrom(OpenState(), Runs(NegativeSteps())) == LastSteps(RunFrom(OpenState(), Runs(ConfirmingSteps())))
  {
    var steps, s := ConfirmingSteps(), OpenState();
    RunPush(s, steps, SettleOrderTx(0, Some(50)));
    RunPush(s, steps + [SettleOrderTx(0, Some(50))], Move(0, Delivered));
    RunPush(s, steps + [SettleOrderTx(0, Some(50))] + [Move(0, Delivered)], Step.Release(0));
  }

  lemma LastStepsOverdraw(s: State)
    requires MoneyInv(s) && s.shop == ConfirmedShop()
    ensures |LastSteps(s).shop.orders| == 1 && LastSteps(s).shop.orders[0].delivery == -50
    ensures Overdraws(LastSteps(s), 0)
  {
    var m := Market(s.books, s.shop);
    CheapItem();
    StepIsMarketStep(s, SettleOrderTx(0, Some(50)));
    Fulfilled(m, 0, 0, Some(50), 2024);
    var paid := SettleOrderPayment(m, 0, Some(50), 2024).after;
    StepIsMarketStep(With(s, paid), Move(0, Delivered));
    Delivers(paid, 0, 2024);
    StepIsMarketStep(With(s, Transition(paid, 0, Delivered).after), Step.Release(0));
  }

  lemma OnlyOverdrawn(s: State)
    requires MoneyInv(s) && |s.shop.orders| == 1 && Overdraws(s, 0)
    ensures Balance(s.books.journals, OrdersEscrow) == s.shop.orders[0].delivery
  {
    EscrowBalance(s);
    assert SumTo(1, HeldFor(s)) == HeldFor(s)(0) + SumTo(0, HeldFor(s));
    assert SumTo(1, OverdrawnBy(s)) == OverdrawnBy(s)(0) + SumTo(0, OverdrawnBy(s));
  }

  /** Every step of this run is one the code takes, from a fresh start; it ends with escrow at -50. */
  lemma {:induction false} EscrowFallsBelowZero()
    ensures Fresh(OpenState())
    ensures Balance(RunFrom(OpenState(), Runs(NegativeSteps())).books.journals, OrdersEscrow) == -50
  {
    FreshIsFine(OpenState());
    EveryRunKeepsMoney(OpenState(), Runs(ConfirmingSteps()));
    EveryRunKeepsMoney(OpenState(), Runs(NegativeSteps()));
    ItIsConfirmed();
    NegativeRun();
    LastStepsOverdraw(RunFrom(OpenState(), Runs(ConfirmingSteps())));
    OnlyOverdrawn(RunFrom(OpenState(), Runs(NegativeSteps())));
  }

  // ---- a coupon counted one short ----

  /** One plan of 100, one coupon of 50 off, one user. */
  function OpenTill(): State {
    State(Books([], [], map[]), Shop([], [], [], [], [], {}, map[], [], {}),
          Pay([Plan(100, 30, false)], [Coupon(true, Fixed, 50, 10, 0, None, 0, None, 0)],
              [Subscriber(false, None, [], false)], [], [], [], {}, {}))
  }

  function CheckoutSteps(): seq<Step> {
    [Begin(0, 0, Some(0)), Persist(0), CustomerPays(0, Some(50)), BkashAnswers(0, true)]
  }

  /** The checkout paid at bKash and confirmed. */
  function ConfirmedPay(): Pay {
    Pay([Plan(100, 30, false)], [Coupon(true, Fixed, 50, 10, 1, None, 0, None, 0)],
        [Subscriber(false, None, [], false)],
        [Checkout(0, 0, 50, 100, Some(0), false)], [Payment(0, 0, 50, 100, Some(0), true, Initiated, None, 0)],
        [MoneyTaken(Some(50))], {(0, Some(50))}, {})
  }

  lemma StepIsTillStep(s: State, step: Step)
    requires !MarketStep(step) && Possible(s, step)
    ensures var after := TillAfter(TillOf(s), Now(step)); After(s, Now(step)) == State(after.books, s.shop, after.pay)
  {
  }

  /** The checkout's row written, and not yet paid. */
  function OpenPay(): Pay {
    ConfirmedPay().(gateway := [NotYetPaid], reports := {})
  }

  lemma ItIsOpened()
    ensures RunFrom(OpenTill(), Runs(CheckoutSteps()[..2])) == OpenTill().(pay := OpenPay())
  {
    var s, steps := OpenTill(), CheckoutSteps();
    assert steps[..0] + [steps[0]] == steps[..1] && steps[..1] + [steps[1]] == steps[..2];
    RunPush(s, steps[..0], steps[0]);
    RunPush(s, steps[..1], steps[1]);
    StepIsTillStep(s, steps[0]);
    StepIsTillStep(s.(pay := BeginCheckout(s.pay, 0, 0, Some(0), 0)), steps[1]);
  }

  lemma ItIsCheckedOut()
    ensures Fresh(OpenTill())
    ensures RunFrom(OpenTill(), Runs(CheckoutSteps())) == OpenTill().(pay := ConfirmedPay())
  {
    var s, steps := OpenTill().(pay := OpenPay()), CheckoutSteps();
    assert steps[..2] + [steps[2]] == steps[..3] && steps[..3] + [steps[3]] == steps;
    ItIsOpened();
    RunPush(OpenTill(), steps[..2], steps[2]);
    RunPush(OpenTill(), steps[..3], steps[3]);
    PayAndAnswer(s);
  }

  lemma PayAndAnswer(s: State)
    requires s.pay == OpenPay()
    ensures After(After(s, Now(CustomerPays(0, Some(50)))), Now(BkashAnswers(0, true))) == s.(pay := ConfirmedPay())
  {
    StepIsTillStep(s, CustomerPays(0, Some(50)));
    StepIsTillStep(s.(pay := PayAtGateway(s.pay, 0, Some(50))), BkashAnswers(0, true));
    assert AnswerCompleted(PayAtGateway(OpenPay(), 0, Some(50)), 0, true) == ConfirmedPay();
  }

  function RegrantSteps(): seq<Step> {
    CheckoutSteps() + [Fulfil(0, Some(50))] + [RefundUser(0, "x")]
  }

  function AfterRefund(s: State): State {
    After(After(s, Now(Fulfil(0, Some(50)))), Now(RefundUser(0, "x")))
  }

  lemma ItIsRefunded()
    ensures RunFrom(OpenTill(), Runs(RegrantSteps())) == AfterRefund(RunFrom(OpenTill(), Runs(CheckoutSteps())))
  {
    RunPush(OpenTill(), CheckoutSteps(), Fulfil(0, Some(50)));
    RunPush(OpenTill(), CheckoutSteps() + [Fulfil(0, Some(50))], RefundUser(0, "x"));
  }

  /** One granted payment with coupon 0, refunded since, whose confirmation may come again. */
  predicate CouponRefunded(pay: Pay) {
    && |pay.payments| == 1 && HitsRefunded(pay, 0) && pay.payments[0].coupon == Some(0)
    && (0, Some(50)) in pay.reports && |pay.coupons| == 1
  }

  lemma ItIsGranted(x: Till)
    requires BooksOK(x) && x.pay == ConfirmedPay()
    ensures var granted := Settle(x, 0, Some(50), 0, 2024).after;
            LedgerInv(granted.books.journals) && granted.pay == Granting(ConfirmedPay(), 0, 0)
  {
    SaleIsAccepted(x.books, 0, x.pay.payments[0], 2024);
    SettleKeepsBooks(x, 0, Some(50), 0, 2024);
  }

  lemma GrantedIsRefunded(x: Till)
    requires LedgerInv(x.books.journals) && x.pay == Granting(ConfirmedPay(), 0, 0)
    ensures CouponRefunded(RefundPayment(x, 0, "x", 0).after.pay)
  {
    ReversalIsAccepted(x.books.journals, OfPayment(0), {SubscriptionPayment});
    assert "x"[0] in "x";
  }

  lemma RefundedPay(s: State)
    requires MoneyInv(s) && s.pay == ConfirmedPay()
    ensures CouponRefunded(AfterRefund(s).pay)
  {
    var granted := Settle(TillOf(s), 0, Some(50), 0, 2024).after;
    ItIsGranted(TillOf(s));
    GrantedIsRefunded(granted);
    StepIsTillStep(s, Fulfil(0, Some(50)));
    StepIsTillStep(State(granted.books, s.shop, granted.pay), RefundUser(0, "x"));
  }

  /** Paid with a coupon, refunded, and then the confirming answer once more: the counter ends one below
      the uses held. */
  lemma {:induction false} CouponCountsOneShort()
    ensures Fresh(OpenTill())
    ensures var pay := RunFrom(OpenTill(), Runs(RegrantSteps() + [Fulfil(0, Some(50))])).pay;
            |pay.coupons| == 1 && pay.coupons[0].used == UsesHeld(pay, 0) - 1
  {
    ItIsCheckedOut();
    ItIsRefunded();
    RunPush(OpenTill(), RegrantSteps(), Fulfil(0, Some(50)));
    FreshCounts(OpenTill());
    EveryRunCounts(OpenTill(), Runs(CheckoutSteps()));
    EveryRunCounts(OpenTill(), Runs(RegrantSteps()));
    RefundedPay(RunFrom(OpenTill(), Runs(CheckoutSteps())));
    OneShort(RunFrom(OpenTill(), Runs(RegrantSteps())));
  }

  lemma OneShort(s: State)
    requires MoneyInv(s) && CouponInv(TillOf(s)) && CouponRefunded(s.pay)
    ensures var pay := After(s, Now(Fulfil(0, Some(50)))).pay;
            |pay.coupons| == 1 && pay.coupons[0].used == UsesHeld(pay, 0) - 1
  {
    var t := Now(Fulfil(0, Some(50)));
    var after := TillOf(After(s, t));
    StepHoldsAgain(s, t, 0, 0);
    StepCounts(s, t);
    StepIsTillStep(s, t.step);
    CounterLaw(after, 0);
    assert SumTo(1, AgainUse(after, 0)) == SumTo(0, AgainUse(after, 0)) + AgainUse(after, 0)(0);
  }
}
