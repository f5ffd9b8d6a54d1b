/** Coupon discounts and the use counter. */
module Coupons {
  import opened Sums

  datatype Discount = Percentage | Fixed | Unknown

  /** `forced` counts the uses taken past the cap for payments that had lost their reservation. */
  datatype Coupon = Coupon(active: bool, discount: Discount, value: int, maxUses: int, used: int, plan: Option<nat>,
                           minAmount: int, expiresAt: Option<int>, forced: nat)

  datatype Quote = Price(amount: int) | CouponNotFound | CouponExpired | CouponExhausted | BelowMinAmount | PlanMismatch

  function ValidateCoupon(c: Coupon, plan: nat, price: int, now: int): Quote {
    if !c.active then CouponNotFound
    else if c.expiresAt.Some? && c.expiresAt.value < now then CouponExpired
    else if c.maxUses > 0 && c.used >= c.maxUses then CouponExhausted
    else if c.minAmount > 0 && price < c.minAmount then BelowMinAmount
    else if c.plan.Some? && c.plan.value != plan then PlanMismatch
    else match c.discount
         case Percentage =>
           var discount := Quotient(price * c.value, 100);
           if discount > price then Price(0) else Price(price - discount)
         case Fixed => if c.value >= price then Price(0) else Price(price - c.value)
         case Unknown => Price(price)
  }

  /** The coupon takes from the price, or leaves it: its value is not negative. A percentage may be as
      long as it does not come to a whole taka. */
  predicate Lowers(c: Coupon, price: int) {
    match c.discount
    case Percentage => price >= 0 && price * c.value > -100
    case Fixed => price >= 0 && c.value >= 0
    case Unknown => true
  }

  /** Of any price and value, negative ones included: the quote is negative only for a negative price
      under an unknown discount, and above the price exactly when the coupon does not lower it. 100
      percent, or a fixed amount of at least the price, makes the plan free. */
  lemma {:induction false} QuotesStayInRange(c: Coupon, plan: nat, price: int, now: int)
    requires ValidateCoupon(c, plan, price, now).Price?
    ensures var amount := ValidateCoupon(c, plan, price, now).amount;
            && (amount >= 0 <==> c.discount != Unknown || price >= 0)
            && (amount <= price <==> Lowers(c, price))
            && (c.discount == Percentage && c.value >= 100 && price >= 0 ==> amount == 0)
            && (c.discount == Fixed && c.value >= price ==> amount == 0)
            && (c.discount == Percentage && 0 <= c.value <= 100 && price >= 0 ==>
                  0 <= 100 * amount - price * (100 - c.value) < 100)
  {
    if c.discount == Percentage {
      TruncatedShare(price * c.value);
      if price >= 0 && c.value >= 0 {
        Scaled(price, c.value);
        assert price * (100 - c.value) == 100 * price - price * c.value;
      }
    }
  }

  predicate Lapsed(c: Coupon, now: int) {
    c.expiresAt.Some? && now > c.expiresAt.value
  }

  predicate UsedUp(c: Coupon) {
    c.maxUses > 0 && c.used >= c.maxUses
  }

  predicate TooCheap(c: Coupon, price: int) {
    c.minAmount > 0 && price < c.minAmount
  }

  /** When a coupon gives a price, and which refusal answers for what: the first of switched off, past
      its end, used up, below its minimum and for another plan. */
  lemma QuoteAnswers(c: Coupon, plan: nat, price: int, now: int)
    ensures var q, other := ValidateCoupon(c, plan, price, now), c.plan.Some? && c.plan != Some(plan);
            && (q.Price? <==> c.active && !Lapsed(c, now) && !UsedUp(c) && !TooCheap(c, price) && !other)
            && (q == CouponNotFound <==> !c.active)
            && (q == CouponExpired <==> c.active && Lapsed(c, now))
            && (q == CouponExhausted <==> c.active && !Lapsed(c, now) && UsedUp(c))
            && (q == BelowMinAmount <==> c.active && !Lapsed(c, now) && !UsedUp(c) && TooCheap(c, price))
            && (q == PlanMismatch <==> c.active && !Lapsed(c, now) && !UsedUp(c) && !TooCheap(c, price) && other)
  {
  }

  /** Time only takes a coupon away: once expired it stays expired, and a price it still gives later it
      gave before. */
  lemma ExpiryIsForGood(c: Coupon, plan: nat, price: int, now: int, later: int)
    requires now <= later
    ensures ValidateCoupon(c, plan, price, now) == CouponExpired ==>
              ValidateCoupon(c, plan, price, later) == CouponExpired
    ensures ValidateCoupon(c, plan, price, later).Price? ==>
              ValidateCoupon(c, plan, price, now) == ValidateCoupon(c, plan, price, later)
    ensures ValidateCoupon(c, plan, price, now) != ValidateCoupon(c, plan, price, later) ==>
              c.active && c.expiresAt.Some? && now <= c.expiresAt.value < later
  {
  }

  /** What each kind of coupon takes off: a percentage its share without the fraction, a fixed amount
      itself, an unknown kind nothing; and never more than the price. */
  lemma QuoteTakesOff(c: Coupon, plan: nat, price: int, now: int)
    requires ValidateCoupon(c, plan, price, now).Price?
    ensures var off := price - ValidateCoupon(c, plan, price, now).amount;
            match c.discount
            case Fixed => off == if c.value < price then c.value else price
            case Unknown => off == 0
            case Percentage =>
              var share := price * c.value;
              || off == price < Quotient(share, 100)
              || (off <= price
                  && if share >= 0 then 0 <= share - 100 * off < 100 else 0 <= 100 * off - share < 100)
  {
    TruncatedShare(price * c.value);
  }

  lemma TruncatedShare(total: int)
    ensures var d := Quotient(total, 100);
            && (total >= 0 ==> 0 <= 100 * d <= total < 100 * d + 100)
            && (d >= 0 <==> total > -100)
            && (total < 0 ==> d <= 0)
  {
  }

  /** A coupon of -50 raises a price of 500: to 750 as a percentage, to 550 as a fixed amount. */
  lemma NegativeValueRaises(c: Coupon, plan: nat, now: int)
    requires c.active && c.value == -50 && c.discount != Unknown && c.minAmount <= 500
    requires c.plan == None && c.expiresAt == None && c.used < c.maxUses
    ensures ValidateCoupon(c, plan, 500, now) == Price(if c.discount == Percentage then 750 else 550)
  {
    assert 500 * c.value == -25000;
  }

  lemma Scaled(price: int, value: int)
    requires price >= 0 && value >= 0
    ensures price * value >= 0
    ensures value >= 100 ==> price * value >= price * 100
    ensures value <= 100 ==> price * value <= price * 100
  {
  }

  predicate Reservable(c: Coupon) {
    c.active && (c.maxUses == 0 || c.used < c.maxUses)
  }

  function Reserve(coupons: seq<Coupon>, c: nat): seq<Coupon>
    requires c < |coupons|
  {
    coupons[c := coupons[c].(used := coupons[c].used + 1)]
  }

  function ForceUse(coupons: seq<Coupon>, c: nat): seq<Coupon> {
    if c < |coupons|
    then coupons[c := coupons[c].(used := coupons[c].used + 1, forced := coupons[c].forced + 1)] else coupons
  }

  function GiveBack(coupons: seq<Coupon>, c: nat): seq<Coupon> {
    if c < |coupons| && coupons[c].used > 0 then coupons[c := coupons[c].(used := coupons[c].used - 1)] else coupons
  }
}
