/** lib/db/coupons.ts: coupon validation, the discounted price, and the
    usage counter. */
module Coupons {
  import opened Wrappers
  import opened Store
  import Rows
  import Text

  /** `Math.round(n / d)` for a positive divisor: the nearest integer, with
      halves rounded up. */
  function RoundHalfUp(n: int, d: int): (r: int)
    requires d > 0
    ensures 2 * (r * d - n) <= d && 2 * (n - r * d) < d
  {
    (2 * n + d) / (2 * d)
  }

  /** The filter of `validateCoupon`'s lookup. */
  function ActiveWithCode(code: string): Coupon -> bool {
    (c: Coupon) => c.code == code && c.active
  }

  /** `now >= new Date(valid_from)` (a null start reads as the epoch) and,
      when an end is set, `now <= valid_until`. */
  predicate InWindow(c: Coupon, now: Time) {
    now >= c.validFrom.GetOr(0) && (c.validUntil.None? || now <= c.validUntil.value)
  }

  /** `max_uses` null or 0 means unlimited. */
  predicate HasUsesLeft(c: Coupon) {
    c.maxUses.None? || c.maxUses.value == 0 || c.currentUses < c.maxUses.value
  }

  predicate MeetsMinimum(c: Coupon, amountCents: int) {
    amountCents >= c.minOrderCents
  }

  /** `validateCoupon`: the one active coupon whose code is the upper-cased
      input, provided it is inside its window, has uses left and the order
      reaches its minimum; otherwise `null`. */
  function ValidateCoupon(coupons: seq<Coupon>, code: string, amountCents: int, now: Time, fault: bool)
    : (r: Option<Coupon>)
    ensures r.Some? <==>
      && !fault
      && Rows.Single(coupons, ActiveWithCode(Text.ToUpper(code))).Some?
      && InWindow(Rows.Single(coupons, ActiveWithCode(Text.ToUpper(code))).value, now)
      && HasUsesLeft(Rows.Single(coupons, ActiveWithCode(Text.ToUpper(code))).value)
      && MeetsMinimum(Rows.Single(coupons, ActiveWithCode(Text.ToUpper(code))).value, amountCents)
    ensures r.Some? ==> r.value in coupons && r.value.active && r.value.code == Text.ToUpper(code)
  {
    if fault then None
    else match Rows.Single(coupons, ActiveWithCode(Text.ToUpper(code)))
      case None => None
      case Some(c) =>
        if now < c.validFrom.GetOr(0) then None
        else if c.validUntil.Some? && now > c.validUntil.value then None
        else if c.maxUses.Some? && c.maxUses.value != 0 && c.currentUses >= c.maxUses.value then None
        else if amountCents < c.minOrderCents then None
        else Some(c)
  }

  /** The guards are inclusive at both ends of the window and at the
      minimum, and a zero or null `max_uses` never rejects. */
  lemma ValidationBoundaries(c: Coupon, amountCents: int, now: Time)
    ensures now == c.validFrom.GetOr(0) && (c.validUntil.None? || now <= c.validUntil.value) ==> InWindow(c, now)
    ensures c.validUntil.Some? && now == c.validUntil.value && now >= c.validFrom.GetOr(0) ==> InWindow(c, now)
    ensures c.validUntil.Some? && now == c.validUntil.value + 1 ==> !InWindow(c, now)
    ensures c.maxUses.None? || c.maxUses.value == 0 ==> HasUsesLeft(c)
    ensures c.maxUses.Some? && c.maxUses.value > 0 && c.currentUses == c.maxUses.value ==> !HasUsesLeft(c)
    ensures amountCents == c.minOrderCents ==> MeetsMinimum(c, amountCents)
    ensures amountCents == c.minOrderCents - 1 ==> !MeetsMinimum(c, amountCents)
  {
  }

  /** `applyCouponDiscount`: the price after the coupon. */
  function ApplyCouponDiscount(c: Coupon, amountCents: int): (r: int) {
    if c.discountType == Percentage then RoundHalfUp(amountCents * (100 - c.discountValue), 100)
    else if amountCents - c.discountValue > 0 then amountCents - c.discountValue
    else 0
  }

  /** A fixed discount takes off the value but never goes below zero. */
  lemma FixedDiscount(c: Coupon, amountCents: int)
    requires c.discountType == Fixed
    ensures ApplyCouponDiscount(c, amountCents) >= 0
    ensures ApplyCouponDiscount(c, amountCents) >= amountCents - c.discountValue
    ensures c.discountValue >= 0 && amountCents >= 0 ==> ApplyCouponDiscount(c, amountCents) <= amountCents
  {
  }

  /** A percentage between 0 and 100 gives a price between 0 and the
      original, the nearest cent to `amount × (1 − value/100)`. */
  lemma PercentageDiscount(c: Coupon, amountCents: int)
    requires c.discountType == Percentage
    requires 0 <= c.discountValue <= 100 && amountCents >= 0
    ensures 0 <= ApplyCouponDiscount(c, amountCents) <= amountCents
    ensures var exact := amountCents * (100 - c.discountValue);
      2 * (ApplyCouponDiscount(c, amountCents) * 100 - exact) <= 100
      && 2 * (exact - ApplyCouponDiscount(c, amountCents) * 100) < 100
  {
    var exact := amountCents * (100 - c.discountValue);
    assert 0 <= exact <= amountCents * 100;
  }

  /** `incrementCouponUsage`: calls the stored procedure
      `increment_coupon_usage`, read from its name as one more use of the
      coupon with the id (its SQL is not part of this model); true iff it
      reported no error. */
  function BumpUses(): Coupon -> Coupon {
    (c: Coupon) => c.(currentUses := c.currentUses + 1)
  }

  method IncrementCouponUsage(db: Db, couponId: Id, fault: bool) returns (ok: bool)
    modifies db
    ensures ok == !fault
    ensures db.coupons == if fault then old(db.coupons) else Rows.UpdateWhere(old(db.coupons), CouponIs(couponId), BumpUses())
    ensures db.orders == old(db.orders) && db.keys == old(db.keys) && db.nextId == old(db.nextId)
    ensures db.products == old(db.products) && db.variants == old(db.variants)
  {
    if fault {
      return false;
    }
    db.coupons := Rows.UpdateWhere(db.coupons, CouponIs(couponId), BumpUses());
    ok := true;
  }

  /** One increment adds exactly one use to the named coupon. */
  lemma IncrementAddsOne(coupons: seq<Coupon>, couponId: Id, i: nat)
    requires i < |coupons|
    ensures var after := Rows.UpdateWhere(coupons, CouponIs(couponId), BumpUses());
      after[i].currentUses == coupons[i].currentUses + (if coupons[i].id == couponId then 1 else 0)
      && after[i].(currentUses := coupons[i].currentUses) == coupons[i]
  {
  }
}
