/** app/actions/stripe.ts: the checkout entry points for the Stripe path.
    Each one checks the product and the variant, prices the purchase with
    the coupon, asks Stripe for a payment object and records a pending
    order for it. Stripe's replies are inputs; what is sent to Stripe is an
    output. */
module StripeActions {
  import opened Wrappers
  import opened Json
  import opened Store
  import Rows
  import Radix
  import Orders
  import Coupons
  import Text
  import opened Fulfilment

  /** What the buyer submits. */
  datatype Purchase = Purchase(productSlug: string, variantId: Id, customerEmail: string, couponCode: Option<string>)

  /** Store errors on the four queries: the product, the variant, the
      coupon and the order insert. */
  datatype Faults = Faults(product: bool, variant: bool, coupon: bool, insert: bool)

  /** The checks both checkout actions make, in order, before anything is
      sent to Stripe or stored: the product exists, it is not "down", and the
      variant exists and belongs to it. */
  function CheckoutGuard(products: seq<Product>, variants: seq<Variant>, p: Purchase, faults: Faults)
    : (g: Result<(Product, Variant)>)
    ensures g == Failure("Product not found") <==> ProductBySlug(products, p.productSlug, faults.product).None?
    ensures g == Failure("This product is currently unavailable") <==>
      && ProductBySlug(products, p.productSlug, faults.product).Some?
      && ProductBySlug(products, p.productSlug, faults.product).value.status == Down
    ensures g.Success? ==>
      && g.value.0 in products && g.value.0.slug == p.productSlug && g.value.0.status != Down
      && g.value.1 in variants && g.value.1.id == p.variantId && g.value.1.productId == g.value.0.id
    ensures g.Failure? ==>
      g.error in {"Product not found", "This product is currently unavailable", "Invalid variant selected"}
  {
    match ProductBySlug(products, p.productSlug, faults.product)
    case None => Failure("Product not found")
    case Some(product) =>
      if product.status == Down then Failure("This product is currently unavailable")
      else match VariantById(variants, p.variantId, faults.variant)
        case None => Failure("Invalid variant selected")
        case Some(variant) =>
          if variant.productId != product.id then Failure("Invalid variant selected")
          else Success((product, variant))
  }

  /** The variant is rejected exactly when it is missing or belongs to
      another product. */
  lemma VariantRejected(products: seq<Product>, variants: seq<Variant>, p: Purchase, faults: Faults)
    requires ProductBySlug(products, p.productSlug, faults.product).Some?
    requires ProductBySlug(products, p.productSlug, faults.product).value.status != Down
    ensures CheckoutGuard(products, variants, p, faults) == Failure("Invalid variant selected") <==>
      || VariantById(variants, p.variantId, faults.variant).None?
      || VariantById(variants, p.variantId, faults.variant).value.productId
           != ProductBySlug(products, p.productSlug, faults.product).value.id
  {
  }

  /** The price of a purchase: what is charged, what was taken off, the
      coupon applied and the code it was applied under. */
  datatype Quote = Quote(finalAmount: int, discountAmount: int, couponId: Option<Id>, couponCodeUsed: Option<string>)

  /** The coupon step: a non-empty code that `validateCoupon` accepts takes
      off what `applyCouponDiscount` says; any other code is ignored. */
  function PriceWithCoupon(coupons: seq<Coupon>, couponCode: Option<string>, price: int, now: Time, fault: bool)
    : (q: Quote)
    ensures q.discountAmount + q.finalAmount == price
    ensures q.couponId.Some? <==>
      Present(couponCode) && Coupons.ValidateCoupon(coupons, couponCode.value, price, now, fault).Some?
    ensures q.couponId.None? ==> q.finalAmount == price && q.discountAmount == 0 && q.couponCodeUsed.None?
    ensures q.couponId.Some? ==>
      var c := Coupons.ValidateCoupon(coupons, couponCode.value, price, now, fault).value;
      && q.couponId == Some(c.id) && q.couponCodeUsed == couponCode
      && q.finalAmount == Coupons.ApplyCouponDiscount(c, price)
  {
    if !Present(couponCode) then Quote(price, 0, None, None)
    else match Coupons.ValidateCoupon(coupons, couponCode.value, price, now, fault)
      case None => Quote(price, 0, None, None)
      case Some(c) =>
        var discounted := Coupons.ApplyCouponDiscount(c, price);
        Quote(discounted, price - discounted, Some(c.id), couponCode)
  }

  /** `variant.duration_days?.toString() || "lifetime"`. */
  function DurationText(durationDays: Option<int>): string {
    if durationDays.None? then "lifetime" else Radix.IntToString(durationDays.value)
  }

  /** "lifetime" stands for a null duration and nothing else; a duration of
      zero is written "0", not "lifetime". */
  lemma DurationTextMeaning(durationDays: Option<int>)
    ensures DurationText(durationDays) == "lifetime" <==> durationDays.None?
    ensures DurationText(Some(0)) == "0"
  {
    if durationDays.Some? {
      var s := Radix.IntToString(durationDays.value);
      if durationDays.value >= 0 {
        assert Radix.AllDigits(s, 10) && Radix.ValueOf('l') >= 10;
        assert s[0] != 'l';
      } else {
        assert s[0] == '-';
      }
    }
    assert Radix.ToRadix(0, 10) == "0";
  }

  /** `couponId || ""`: how a coupon id is written into Stripe metadata. */
  function CouponText(couponId: Option<Id>): string {
    if couponId.Some? then UuidText(couponId.value) else ""
  }

  /** The empty string stands for "no coupon", and distinct coupons are
      written differently, so the webhook reads back exactly the coupon
      applied. */
  lemma CouponTextReadBack(a: Option<Id>, b: Option<Id>)
    ensures CouponText(a) == "" <==> a.None?
    ensures CouponText(a) == CouponText(b) ==> a == b
  {
    if a.Some? && b.Some? && CouponText(a) == CouponText(b) {
      Radix.RadixInjective(a.value, b.value, 10);
    }
  }

  // ---------------------------------------------------------------------
  // createPaymentIntent

  /** What Stripe answers to a create call: the new object's id and client
      secret, or the error the SDK throws. */
  datatype Created = Created(id: string, clientSecret: string)

  /** The payment intent request: amount, "usd", the receipt e-mail and the
      string metadata. */
  datatype IntentRequest = IntentRequest(amount: int, currency: string, receiptEmail: string, metadata: map<string, string>)

  function IntentMetadata(product: Product, variant: Variant, email: string, q: Quote): (m: map<string, string>)
    ensures m.Keys == {"product_id", "product_slug", "product_name", "variant_id", "variant_name", "customer_email",
                       "coupon_id", "duration_days", "original_amount", "discount_amount"}
    ensures m["coupon_id"] == CouponText(q.couponId) && m["duration_days"] == DurationText(variant.durationDays)
  {
    map[
      "product_id" := UuidText(product.id),
      "product_slug" := product.slug,
      "product_name" := product.name,
      "variant_id" := UuidText(variant.id),
      "variant_name" := variant.name,
      "customer_email" := email,
      "coupon_id" := CouponText(q.couponId),
      "duration_days" := DurationText(variant.durationDays),
      "original_amount" := Radix.IntToString(variant.priceCents),
      "discount_amount" := Radix.IntToString(q.discountAmount)
    ]
  }

  /** The `metadata` the pending order is stored with. */
  function OrderMetadata(q: Quote, price: int): Metadata {
    map[
      "coupon_id" := (if q.couponId.Some? then JUuid(q.couponId.value) else JNull),
      "coupon_code" := (if q.couponCodeUsed.Some? then JStr(q.couponCodeUsed.value) else JNull),
      "original_amount" := JNum(price),
      "discount_amount" := JNum(q.discountAmount)
    ]
  }

  datatype IntentResult =
    | IntentCreated(clientSecret: string, orderId: Id, orderNumber: string, productName: string,
                    variantName: string, originalAmount: int, discountAmount: int, finalAmount: int)
    | IntentError(message: string)

  /** The pending order a created intent is recorded as. */
  function IntentOrder(id: Id, orderNumber: string, p: Purchase, product: Product, variant: Variant,
                       q: Quote, intentId: string): Order
  {
    Orders.NewOrder(id, orderNumber, p.customerEmail, product.id, variant.id, q.finalAmount,
                    Some(intentId), None, Some(OrderMetadata(q, variant.priceCents)))
  }

  /** `createPaymentIntent`. A rejected purchase sends nothing and stores
      nothing; an intent Stripe refuses stores nothing; a failed insert
      leaves an intent without an order and the action throws. */
  method CreatePaymentIntent(
    db: Db, p: Purchase, stripeReply: Result<Created>, now: nat, randomText: string, faults: Faults)
    returns (r: IntentResult, sent: Option<IntentRequest>)
    requires db.Valid()
    modifies db
    ensures db.Valid() && KeyWritesSettle(old(db.orders), db.orders)
    ensures db.keys == old(db.keys) && db.coupons == old(db.coupons)
    ensures db.products == old(db.products) && db.variants == old(db.variants)
    ensures var g := CheckoutGuard(old(db.products), old(db.variants), p, faults);
      && (g.Failure? ==> r == IntentError(g.error) && sent.None? && Untouched(db))
      && (g.Success? ==>
            var (product, variant) := g.value;
            var q := PriceWithCoupon(old(db.coupons), p.couponCode, variant.priceCents, now, faults.coupon);
            && sent == Some(IntentRequest(q.finalAmount, "usd", p.customerEmail,
                                          IntentMetadata(product, variant, p.customerEmail, q)))
            && (stripeReply.Failure? ==> r == IntentError(stripeReply.error) && Untouched(db))
            && (stripeReply.Success? && faults.insert ==> r == IntentError(TypeErrorMessage) && Untouched(db))
            && (stripeReply.Success? && !faults.insert ==>
                  var o := IntentOrder(old(db.nextId), Orders.OrderNumber(now, randomText), p, product, variant,
                                       q, stripeReply.value.id);
                  && db.orders == old(db.orders) + [o] && db.nextId == old(db.nextId) + 1
                  && r == IntentCreated(stripeReply.value.clientSecret, o.id, o.orderNumber, product.name,
                                        variant.name, variant.priceCents, q.discountAmount, q.finalAmount)))
  {
    Store.KeyWritesSettleRefl(db.orders, db.nextId);
    var g := CheckoutGuard(db.products, db.variants, p, faults);
    if g.Failure? {
      return IntentError(g.error), None;
    }
    var (product, variant) := g.value;
    var q := PriceWithCoupon(db.coupons, p.couponCode, variant.priceCents, now, faults.coupon);
    sent := Some(IntentRequest(q.finalAmount, "usd", p.customerEmail, IntentMetadata(product, variant, p.customerEmail, q)));
    if stripeReply.Failure? {
      return IntentError(stripeReply.error), sent;
    }
    var intent := stripeReply.value;
    var order := Orders.CreateOrder(db, p.customerEmail, product.id, variant.id, q.finalAmount, Some(intent.id), None,
                                    Some(OrderMetadata(q, variant.priceCents)), now, randomText, faults.insert);
    if order.None? {
      // `order.id` on `null`.
      return IntentError(TypeErrorMessage), sent;
    }
    r := IntentCreated(intent.clientSecret, order.value.id, order.value.orderNumber, product.name, variant.name,
                       variant.priceCents, q.discountAmount, q.finalAmount);
  }

  /** What a created intent promises the buyer and the webhook: the amounts
      add up to the price, and the pending order charges the final amount
      under the new intent's id. */
  lemma IntentAmounts(p: Purchase, product: Product, variant: Variant, coupons: seq<Coupon>, now: Time,
                      fault: bool, id: Id, orderNumber: string, intentId: string)
    ensures var q := PriceWithCoupon(coupons, p.couponCode, variant.priceCents, now, fault);
      var o := IntentOrder(id, orderNumber, p, product, variant, q, intentId);
      && q.discountAmount + q.finalAmount == variant.priceCents
      && o.amountCents == q.finalAmount && o.paymentIntentId == Some(intentId) && o.status == Pending
      && o.checkoutSessionId.None? && o.licenseKeyId.None?
      && o.metadata["original_amount"] == JNum(variant.priceCents)
      && (q.couponId.None? <==> o.metadata["coupon_id"] == JNull)
  {
  }

  // ---------------------------------------------------------------------
  // createCheckoutSession

  /** The default when the request has no `origin` header. */
  const DefaultOrigin: string := "https://valor.com"

  /** `headersList.get("origin") || "https://valor.com"`. */
  function Origin(header: Option<string>): (o: string)
    ensures Present(header) ==> o == header.value
    ensures !Present(header) ==> o == DefaultOrigin
  {
    if Present(header) then header.value else DefaultOrigin
  }

  /** The embedded checkout session request: one line of the product and
      variant at the final amount, the string metadata and the return
      address with Stripe's session placeholder. */
  datatype SessionRequest = SessionRequest(
    customerEmail: string, lineName: string, currency: string, unitAmount: int, quantity: nat,
    metadata: map<string, string>, returnUrl: string)

  function SessionMetadata(product: Product, variant: Variant, email: string, q: Quote): (m: map<string, string>)
    ensures m.Keys == {"product_id", "product_slug", "variant_id", "variant_name", "customer_email",
                       "coupon_id", "duration_days"}
    ensures m["coupon_id"] == CouponText(q.couponId) && m["duration_days"] == DurationText(variant.durationDays)
  {
    map[
      "product_id" := UuidText(product.id),
      "product_slug" := product.slug,
      "variant_id" := UuidText(variant.id),
      "variant_name" := variant.name,
      "customer_email" := email,
      "coupon_id" := CouponText(q.couponId),
      "duration_days" := DurationText(variant.durationDays)
    ]
  }

  function SessionRequestFor(origin: Option<string>, p: Purchase, product: Product, variant: Variant, q: Quote)
    : (s: SessionRequest)
    ensures s.unitAmount == q.finalAmount && s.quantity == 1
    ensures s.returnUrl == Origin(origin) + "/checkout/success?session_id={CHECKOUT_SESSION_ID}"
  {
    SessionRequest(p.customerEmail, product.name + " - " + variant.name, "usd", q.finalAmount, 1,
                   SessionMetadata(product, variant, p.customerEmail, q),
                   Origin(origin) + "/checkout/success?session_id={CHECKOUT_SESSION_ID}")
  }

  /** The `metadata` of a session's pending order. */
  function SessionOrderMetadata(q: Quote, price: int): Metadata {
    map[
      "coupon_id" := (if q.couponId.Some? then JUuid(q.couponId.value) else JNull),
      "original_amount" := JNum(price)
    ]
  }

  function SessionOrder(id: Id, orderNumber: string, p: Purchase, product: Product, variant: Variant,
                        q: Quote, sessionId: string): Order
  {
    Orders.NewOrder(id, orderNumber, p.customerEmail, product.id, variant.id, q.finalAmount,
                    None, Some(sessionId), Some(SessionOrderMetadata(q, variant.priceCents)))
  }

  datatype SessionResult = SessionCreated(clientSecret: string) | SessionError(message: string)

  /** `createCheckoutSession`. The same rejections as for an intent; the
      order is keyed by the session id. The insert's result is not looked
      at, so a failed insert still hands the buyer the session. */
  method CreateCheckoutSession(
    db: Db, p: Purchase, origin: Option<string>, stripeReply: Result<Created>, now: nat, randomText: string,
    faults: Faults)
    returns (r: SessionResult, sent: Option<SessionRequest>)
    requires db.Valid()
    modifies db
    ensures db.Valid() && KeyWritesSettle(old(db.orders), db.orders)
    ensures db.keys == old(db.keys) && db.coupons == old(db.coupons)
    ensures db.products == old(db.products) && db.variants == old(db.variants)
    ensures var g := CheckoutGuard(old(db.products), old(db.variants), p, faults);
      && (g.Failure? ==> r == SessionError(g.error) && sent.None? && Untouched(db))
      && (g.Success? ==>
            var (product, variant) := g.value;
            var q := PriceWithCoupon(old(db.coupons), p.couponCode, variant.priceCents, now, faults.coupon);
            && sent == Some(SessionRequestFor(origin, p, product, variant, q))
            && (stripeReply.Failure? ==> r == SessionError(stripeReply.error) && Untouched(db))
            && (stripeReply.Success? ==> r == SessionCreated(stripeReply.value.clientSecret))
            && (stripeReply.Success? && faults.insert ==> Untouched(db))
            && (stripeReply.Success? && !faults.insert ==>
                  && db.orders == old(db.orders) + [SessionOrder(old(db.nextId), Orders.OrderNumber(now, randomText),
                                                                 p, product, variant, q, stripeReply.value.id)]
                  && db.nextId == old(db.nextId) + 1))
  {
    Store.KeyWritesSettleRefl(db.orders, db.nextId);
    var g := CheckoutGuard(db.products, db.variants, p, faults);
    if g.Failure? {
      return SessionError(g.error), None;
    }
    var (product, variant) := g.value;
    var q := PriceWithCoupon(db.coupons, p.couponCode, variant.priceCents, now, faults.coupon);
    sent := Some(SessionRequestFor(origin, p, product, variant, q));
    if stripeReply.Failure? {
      return SessionError(stripeReply.error), sent;
    }
    var session := stripeReply.value;
    var _ := Orders.CreateOrder(db, p.customerEmail, product.id, variant.id, q.finalAmount, None, Some(session.id),
                                Some(SessionOrderMetadata(q, variant.priceCents)), now, randomText, faults.insert);
    r := SessionCreated(session.clientSecret);
  }

  // ---------------------------------------------------------------------
  // validateCouponCode

  datatype CouponCheck =
    | CouponValid(discountAmount: int, finalAmount: int, discountType: DiscountType, discountValue: int)
    | CouponInvalid(error: string)

  /** `validateCouponCode`: the price preview shown before checkout. */
  function ValidateCouponCode(coupons: seq<Coupon>, variants: seq<Variant>, couponCode: string, variantId: Id,
                              now: Time, faults: Faults): (r: CouponCheck)
    ensures r == CouponInvalid("Invalid variant") <==> VariantById(variants, variantId, faults.variant).None?
    ensures r.CouponValid? <==>
      && VariantById(variants, variantId, faults.variant).Some?
      && Coupons.ValidateCoupon(coupons, couponCode,
           VariantById(variants, variantId, faults.variant).value.priceCents, now, faults.coupon).Some?
    ensures r.CouponInvalid? ==> r.error in {"Invalid variant", "Invalid or expired coupon code"}
    ensures r.CouponValid? ==>
      && r.discountAmount + r.finalAmount == VariantById(variants, variantId, faults.variant).value.priceCents
      && var c := Coupons.ValidateCoupon(coupons, couponCode,
                    VariantById(variants, variantId, faults.variant).value.priceCents, now, faults.coupon).value;
         r.discountType == c.discountType && r.discountValue == c.discountValue
  {
    match VariantById(variants, variantId, faults.variant)
    case None => CouponInvalid("Invalid variant")
    case Some(variant) =>
      match Coupons.ValidateCoupon(coupons, couponCode, variant.priceCents, now, faults.coupon)
      case None => CouponInvalid("Invalid or expired coupon code")
      case Some(c) =>
        var discounted := Coupons.ApplyCouponDiscount(c, variant.priceCents);
        CouponValid(variant.priceCents - discounted, discounted, c.discountType, c.discountValue)
  }

  /** The preview is what checkout charges: for the same store, code and
      moment, an accepted code previews exactly the final amount and the
      discount the payment intent is then created with. */
  lemma PreviewMatchesCharge(coupons: seq<Coupon>, variants: seq<Variant>, variant: Variant, couponCode: string,
                             now: Time, faults: Faults)
    requires VariantById(variants, variant.id, faults.variant) == Some(variant)
    requires ValidateCouponCode(coupons, variants, couponCode, variant.id, now, faults).CouponValid?
    requires couponCode != ""
    ensures var preview := ValidateCouponCode(coupons, variants, couponCode, variant.id, now, faults);
      var q := PriceWithCoupon(coupons, Some(couponCode), variant.priceCents, now, faults.coupon);
      && q.couponId.Some?
      && q.finalAmount == preview.finalAmount && q.discountAmount == preview.discountAmount
  {
  }
}
