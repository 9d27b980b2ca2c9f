/** app/actions/cardsetup.ts: paying through the Card Setup gateway. The
    invoice action prices the order with its own coupon rules, inserts a
    pending order and asks the gateway for a payment page, deleting the order
    again when that fails; the two callbacks complete the order. The gateway's
    replies are inputs. */
module CardSetupActions {
  import opened Wrappers
  import opened Json
  import opened Store
  import Rows
  import Text
  import Orders
  import Coupons
  import LicenseKeys
  import CardSetupClient
  import opened Fulfilment

  // ---------------------------------------------------------------------
  // Coupons, as this file checks and applies them

  /** `isTimeValid`: a missing start or end leaves that side open. */
  predicate TimeValid(c: Coupon, now: Time) {
    (c.validFrom.None? || now >= c.validFrom.value) && (c.validUntil.None? || now <= c.validUntil.value)
  }

  /** `isTimeValid && isUsageValid && meetsMinimum`; a zero minimum is no
      minimum. */
  predicate Usable(c: Coupon, price: int, now: Time) {
    TimeValid(c, now) && Coupons.HasUsesLeft(c) && (c.minOrderCents == 0 || price >= c.minOrderCents)
  }

  /** For a non-negative clock and price these are the rules of
      `validateCoupon` in lib/db/coupons.ts. */
  lemma UsableAsValidated(c: Coupon, price: int, now: Time)
    requires now >= 0 && price >= 0
    ensures Usable(c, price, now) <==> Coupons.InWindow(c, now) && Coupons.HasUsesLeft(c) && Coupons.MeetsMinimum(c, price)
  {
  }

  /** `discountAmount`: `Math.round(price × value / 100)` for a percentage,
      `Math.min(value, price)` for a fixed amount. */
  function Discount(c: Coupon, price: int): int {
    if c.discountType == Percentage then Coupons.RoundHalfUp(price * c.discountValue, 100)
    else if c.discountValue < price then c.discountValue
    else price
  }

  /** For a percentage between 0 and 100, or a non-negative fixed value, the
      discount lies between nothing and the whole price. */
  lemma DiscountBounds(c: Coupon, price: int)
    requires price >= 0
    requires c.discountType == Percentage ==> 0 <= c.discountValue <= 100
    requires c.discountType == Fixed ==> c.discountValue >= 0
    ensures 0 <= Discount(c, price) <= price
  {
    if c.discountType == Percentage {
      var n := price * c.discountValue;
      MulBounds(price, c.discountValue);
      var r := Coupons.RoundHalfUp(n, 100);
      assert 200 * r <= 2 * n + 100 && 2 * n < 200 * r + 100;
    }
  }

  lemma MulBounds(price: int, v: int)
    requires price >= 0 && 0 <= v <= 100
    ensures 0 <= price * v <= 100 * price
  {
    assert price * v + price * (100 - v) == 100 * price;
  }

  /** This file rounds the discount, lib/db/coupons.ts rounds the price: a
      fixed coupon gives the same price both ways, and a percentage gives
      the same price except when the exact discount ends in half a cent,
      where the price here is one cent lower. */
  lemma TwoRoundings(c: Coupon, price: int)
    ensures c.discountType == Fixed ==> price - Discount(c, price) == Coupons.ApplyCouponDiscount(c, price)
    ensures c.discountType == Percentage && (price * c.discountValue) % 100 != 50 ==>
      price - Discount(c, price) == Coupons.ApplyCouponDiscount(c, price)
    ensures c.discountType == Percentage && (price * c.discountValue) % 100 == 50 ==>
      price - Discount(c, price) == Coupons.ApplyCouponDiscount(c, price) - 1
  {
    if c.discountType == Percentage {
      var n := price * c.discountValue;
      var q, rem := n / 100, n % 100;
      assert n == 100 * q + rem;
      assert price * (100 - c.discountValue) == 100 * price - n;
      RoundSplit(q, rem, price);
    }
  }

  lemma RoundSplit(q: int, rem: int, price: int)
    requires 0 <= rem < 100
    ensures Coupons.RoundHalfUp(100 * q + rem, 100) == q + (if rem >= 50 then 1 else 0)
    ensures Coupons.RoundHalfUp(100 * price - (100 * q + rem), 100) == price - q - (if rem > 50 then 1 else 0)
  {
    var a := 2 * (100 * q + rem) + 100;
    assert a == 200 * q + (2 * rem + 100);
    var b := 2 * (100 * price - (100 * q + rem)) + 100;
    if rem > 50 {
      assert b == 200 * (price - q - 1) + (300 - 2 * rem);
    } else {
      assert b == 200 * (price - q) + (100 - 2 * rem);
    }
  }

  /** A price of one cent with a 50% coupon: free here, one cent through
      `applyCouponDiscount`. */
  lemma RoundingExample(c: Coupon)
    requires c.discountType == Percentage && c.discountValue == 50
    ensures 1 - Discount(c, 1) == 0 && Coupons.ApplyCouponDiscount(c, 1) == 1
  {
  }

  /** The price of an invoice: what is charged, what was taken off, and the
      coupon applied, if any. */
  datatype Pricing = Pricing(finalAmount: int, discountAmount: int, couponId: Option<Id>)

  /** The price computation of `createCardSetupInvoice`: with a non-empty
      code, the one active coupon with the upper-cased code, if usable, takes
      off its discount; a failed lookup or an unusable coupon is ignored. */
  function InvoicePricing(coupons: seq<Coupon>, couponCode: Option<string>, price: int, now: Time, fault: bool)
    : (p: Pricing)
    ensures p.finalAmount + p.discountAmount == price
    ensures p.couponId.None? ==> p.discountAmount == 0 && p.finalAmount == price
    ensures p.couponId.Some? <==>
      && Present(couponCode) && !fault
      && Rows.Single(coupons, Coupons.ActiveWithCode(Text.ToUpper(couponCode.value))).Some?
      && Usable(Rows.Single(coupons, Coupons.ActiveWithCode(Text.ToUpper(couponCode.value))).value, price, now)
    ensures p.couponId.Some? ==>
      var c := Rows.Single(coupons, Coupons.ActiveWithCode(Text.ToUpper(couponCode.value))).value;
      && c in coupons && c.active && c.code == Text.ToUpper(couponCode.value)
      && p.couponId == Some(c.id) && p.discountAmount == Discount(c, price)
  {
    if !Present(couponCode) || fault then Pricing(price, 0, None)
    else match Rows.Single(coupons, Coupons.ActiveWithCode(Text.ToUpper(couponCode.value)))
      case None => Pricing(price, 0, None)
      case Some(c) =>
        if Usable(c, price, now) then Pricing(price - Discount(c, price), Discount(c, price), Some(c.id))
        else Pricing(price, 0, None)
  }

  // ---------------------------------------------------------------------
  // The invoice

  /** `url.replace(/\/$/, "") + "/"`: exactly one trailing "/". */
  function WithSlash(url: string): (u: string)
    ensures |u| >= 1 && u[|u| - 1] == '/'
    ensures |url| > 0 && url[|url| - 1] == '/' ==> u == url
    ensures !(|url| > 0 && url[|url| - 1] == '/') ==> u == url + "/"
  {
    (if |url| > 0 && url[|url| - 1] == '/' then url[..|url| - 1] else url) + "/"
  }

  /** Adding the slash to an address that has it changes nothing. */
  lemma WithSlashIdempotent(url: string)
    ensures WithSlash(WithSlash(url)) == WithSlash(url)
  {
  }

  /** The store address: `CARDSETUP_STORE_URL`, or "https://valor.com" when
      it is unset or empty, with one trailing "/". */
  function StoreUrl(env: map<string, string>): (u: string)
    ensures |u| >= 1 && u[|u| - 1] == '/'
    ensures "CARDSETUP_STORE_URL" !in env ==> u == "https://valor.com/"
  {
    var configured := if "CARDSETUP_STORE_URL" in env then env["CARDSETUP_STORE_URL"] else "";
    WithSlash(if configured != "" then configured else "https://valor.com")
  }

  /** The address the gateway sends the buyer back to. */
  function CallbackUrl(storeUrl: string, orderId: Id): string {
    storeUrl + "checkout/cardsetup-callback/?order_id=" + UuidText(orderId)
  }

  /** The `metadata` the pending order is inserted with. */
  function InvoiceMeta(p: Pricing, couponCode: Option<string>, price: int): Metadata {
    map[
      "coupon_id" := (if p.couponId.Some? then JUuid(p.couponId.value) else JNull),
      "coupon_code" := (if Present(couponCode) then JStr(couponCode.value) else JNull),
      "discount_amount" := JNum(p.discountAmount),
      "original_amount" := JNum(price)
    ]
  }

  /** The pending order `createCardSetupInvoice` inserts. */
  function InvoiceOrder(id: Id, orderNumber: string, email: string, product: Product, variant: Variant,
                        p: Pricing, couponCode: Option<string>): Order
  {
    Order(id, orderNumber, email, product.id, variant.id, None, p.finalAmount, Pending, None, None,
          Some("cardsetup"), InvoiceMeta(p, couponCode, variant.priceCents), None)
  }

  /** The invoice sent to the gateway for that order. */
  function InvoiceRequest(env: map<string, string>, o: Order, product: Product, variant: Variant): Json {
    var store := StoreUrl(env);
    CardSetupClient.InvoicePayload(JStr(store), o.orderNumber, o.amountCents, product.name + " - " + variant.name,
                                   o.customerEmail, CallbackUrl(store, o.id),
                                   Some("Order " + o.orderNumber + " for " + product.name))
  }

  /** The invoice carries the order number, the charged amount in dollars,
      and a callback naming the order. */
  lemma InvoiceRequestContents(env: map<string, string>, o: Order, product: Product, variant: Variant)
    ensures var j := InvoiceRequest(env, o, product, variant);
      && j.JObj? && "invoice_id" in j.fields && "amount" in j.fields && "store" in j.fields
      && j.fields["invoice_id"] == JStr(o.orderNumber)
      && CardSetupClient.ParseDollars(j.fields["amount"].s) == Some(o.amountCents)
      && j.fields["store"] == JStr(StoreUrl(env))
  {
    CardSetupClient.DollarsRoundTrip(o.amountCents);
  }

  /** What the gateway did with a request: the call or the parsing of its
      reply threw an error with this message, or it answered this JSON. */
  datatype Reply = Unreachable(message: string) | Replied(body: Json)

  /** `errors.join(", ")`: `null` elements are written as empty strings. */
  function JoinItems(items: seq<Json>): string {
    Text.Join(seq(|items|, i requires 0 <= i < |items| => if items[i].JNull? then "" else Str(items[i])), ", ")
  }

  /** `new Error(result.errors?.join(", ") || "Failed to create invoice")`;
      an `errors` that is neither missing, `null` nor an array has no
      `join`, and the call throws a `TypeError` instead. */
  function RejectionMessage(result: Json): (m: string)
    ensures Prop(Some(result), "errors").None? ==> m == "Failed to create invoice"
  {
    var errors := Prop(Some(result), "errors");
    if errors.None? || errors.value.JNull? then "Failed to create invoice"
    else if !errors.value.JArr? then TypeErrorMessage
    else if JoinItems(errors.value.items) == "" then "Failed to create invoice"
    else JoinItems(errors.value.items)
  }

  lemma RejectionExample()
    ensures RejectionMessage(JObj(map["success" := JBool(false), "errors" := JArr([JStr("Declined"), JStr("Try again")])]))
      == "Declined, Try again"
  {
    var items := [JStr("Declined"), JStr("Try again")];
    var parts := seq(|items|, i requires 0 <= i < |items| => if items[i].JNull? then "" else Str(items[i]));
    assert parts == ["Declined", "Try again"];
    assert parts[1..] == ["Try again"];
    assert Text.Join(parts[1..], ", ") == "Try again";
    assert JoinItems(items) == "Declined" + ", " + "Try again";
  }

  /** Where the gateway may put the payment page, in the order they are
      tried: in `data.Transaction`, in `data`, and at the top level. */
  function TransactionCandidates(result: Json): seq<Option<Json>> {
    var t := Prop(Prop(Some(result), "data"), "Transaction");
    [Prop(t, "PaymentPage"), Prop(t, "PaymentPortal")]
  }

  function DataCandidates(result: Json): seq<Option<Json>> {
    var data := Prop(Some(result), "data");
    [Prop(data, "PaymentPage"), Prop(data, "PaymentPortal"), Prop(data, "payment_url"),
     Prop(data, "redirect_url"), Prop(data, "url")]
  }

  function TopCandidates(result: Json): seq<Option<Json>> {
    var r := Some(result);
    [Prop(r, "PaymentPage"), Prop(r, "PaymentPortal"), Prop(r, "payment_url")]
  }

  /** All ten candidates, in order. */
  function RedirectCandidates(result: Json): seq<Option<Json>> {
    TransactionCandidates(result) + DataCandidates(result) + TopCandidates(result)
  }

  /** The redirect address as the three steps of `createCardSetupInvoice`
      look for it; it is the first truthy candidate, whenever there is
      one. */
  function RedirectUrl(result: Json): (u: Option<Json>)
    ensures Truthy(u) <==> Truthy(OrChain(RedirectCandidates(result)))
    ensures Truthy(u) ==> u == OrChain(RedirectCandidates(result))
  {
    var data := Prop(Some(result), "data");
    var t := Prop(data, "Transaction");
    var first := if Truthy(t) then OrChain(TransactionCandidates(result)) else None;
    var second := if !Truthy(first) && Truthy(data) then OrChain(DataCandidates(result)) else first;
    var u := if !Truthy(second) then OrChain(TopCandidates(result)) else second;
    RedirectSteps(result);
    u
  }

  /** The three steps are the chain over the ten candidates: a falsy
      `data.Transaction` or `data` has none of the properties. */
  lemma RedirectSteps(result: Json)
    ensures !Truthy(Prop(Prop(Some(result), "data"), "Transaction")) ==>
      !Truthy(OrChain(TransactionCandidates(result)))
    ensures !Truthy(Prop(Some(result), "data")) ==> !Truthy(OrChain(DataCandidates(result)))
    ensures OrChain(RedirectCandidates(result)) ==
      (var ab := OrChain(TransactionCandidates(result) + DataCandidates(result));
       if Truthy(ab) then ab else OrChain(TopCandidates(result)))
    ensures OrChain(TransactionCandidates(result) + DataCandidates(result)) ==
      (var a := OrChain(TransactionCandidates(result));
       if Truthy(a) then a else OrChain(DataCandidates(result)))
  {
    var t, d, p := TransactionCandidates(result), DataCandidates(result), TopCandidates(result);
    if !Truthy(Prop(Prop(Some(result), "data"), "Transaction")) {
      assert t == [None, None];
    }
    if !Truthy(Prop(Some(result), "data")) {
      assert d == [None, None, None, None, None];
    }
    OrChainAppend(t, d);
    OrChainAppend(t + d, p);
  }

  /** `a || b` over two runs of operands is the chain over both. */
  lemma {:induction false} OrChainAppend(a: seq<Option<Json>>, b: seq<Option<Json>>)
    requires |a| >= 1 && |b| >= 1
    ensures OrChain(a + b) == if Truthy(OrChain(a)) then OrChain(a) else OrChain(b)
  {
    assert (a + b)[0] == a[0];
    if |a| == 1 {
      assert (a + b)[1..] == b;
    } else {
      assert (a + b)[1..] == a[1..] + b;
      OrChainAppend(a[1..], b);
    }
  }

  /** A reply that gets the buyer to a payment page. */
  predicate Accepted(reply: Reply) {
    && reply.Replied? && !reply.body.JNull?
    && Truthy(Prop(Some(reply.body), "success"))
    && Truthy(RedirectUrl(reply.body))
  }

  /** The error thrown for any other reply. */
  function FailureMessage(reply: Reply): string {
    match reply
    case Unreachable(m) => m
    case Replied(body) =>
      if body.JNull? then TypeErrorMessage
      else if !Truthy(Prop(Some(body), "success")) then RejectionMessage(body)
      else "Payment gateway did not return a checkout URL. Please contact support."
  }

  /** The metadata written once the gateway accepted: the invoice id and
      the gateway's data (each dropped when the reply lacks it). */
  function GatewayMeta(m: Metadata, body: Json): Metadata {
    SetMeta(SetMeta(m, "cardsetup_invoice_id", Prop(Some(body), "invoice_id")), "cardsetup_data", Prop(Some(body), "data"))
  }

  function SetMetadata(m: Metadata): Order -> Order {
    (o: Order) => o.(metadata := m)
  }

  /** Which store calls of `createCardSetupInvoice` report an error: the
      product, variant and coupon lookups, the insert, the delete after a
      rejecting reply, the delete in the `catch`, and the metadata update. */
  datatype InvoiceFaults = InvoiceFaults(
    product: bool, variant: bool, coupon: bool, insert: bool,
    deleteOnReply: bool, deleteInCatch: bool, update: bool)

  /** Whether one of the deletes a failed reply triggers goes through: a
      rejecting reply deletes once in its branch and once more in the
      `catch`; a thrown error only in the `catch`. */
  predicate OrderRemoved(reply: Reply, faults: InvoiceFaults) {
    if reply.Unreachable? || reply.body.JNull? then !faults.deleteInCatch
    else !faults.deleteOnReply || !faults.deleteInCatch
  }

  datatype InvoiceResult =
    | Invoiced(orderId: Id, orderNumber: string, redirectUrl: Json, invoiceId: Option<Json>)
    | InvoiceError(message: string)

  /** The steps after the order is inserted into `before`: the gateway
      call and either the metadata update or the clean-up. */
  predicate InvoiceSettled(db: Db, before: seq<Order>, row: Order, reply: Reply, faults: InvoiceFaults, r: InvoiceResult)
    reads db
  {
    && (r.Invoiced? <==> Accepted(reply))
    && (r.Invoiced? ==>
          && r == Invoiced(row.id, row.orderNumber, RedirectUrl(reply.body).value, Prop(Some(reply.body), "invoice_id"))
          && db.orders == before + [if faults.update then row else row.(metadata := GatewayMeta(row.metadata, reply.body))])
    && (r.InvoiceError? ==>
          && r.message == FailureMessage(reply)
          && db.orders == if OrderRemoved(reply, faults) then before else before + [row])
  }

  /** The checks `createCardSetupInvoice` makes before it writes anything:
      the product by its slug, the variant by its id, and the insert. */
  function InvoiceGuard(products: seq<Product>, variants: seq<Variant>, productSlug: string, variantId: Id,
                        faults: InvoiceFaults): (g: Result<(Product, Variant)>)
    ensures g.Success? ==> g.value.0 in products && g.value.0.slug == productSlug
    ensures g.Success? ==> g.value.1 in variants && g.value.1.id == variantId
    ensures g.Success? <==>
      ProductBySlug(products, productSlug, faults.product).Some? && VariantById(variants, variantId, faults.variant).Some?
      && !faults.insert
  {
    match ProductBySlug(products, productSlug, faults.product)
    case None => Failure("Product not found")
    case Some(product) =>
      match VariantById(variants, variantId, faults.variant)
      case None => Failure("Variant not found")
      case Some(variant) =>
        if faults.insert then Failure("Failed to create order") else Success((product, variant))
  }

  /** `createCardSetupInvoice`. Before the insert every failure leaves the
      store as it was; after it every failure deletes the order again (unless
      each delete call fails too). */
  method CreateCardSetupInvoice(
    db: Db, productSlug: string, variantId: Id, email: string, couponCode: Option<string>,
    env: map<string, string>, reply: Reply, now: nat, randomText: string, faults: InvoiceFaults)
    returns (r: InvoiceResult, sent: Option<Json>)
    requires db.Valid()
    modifies db
    ensures db.Valid() && KeyWritesSettle(old(db.orders), db.orders)
    ensures db.keys == old(db.keys) && db.coupons == old(db.coupons)
    ensures db.products == old(db.products) && db.variants == old(db.variants)
    ensures var g := InvoiceGuard(old(db.products), old(db.variants), productSlug, variantId, faults);
      && (g.Failure? ==> r == InvoiceError(g.error) && sent.None? && Untouched(db))
      && (g.Success? ==>
            var (product, variant) := g.value;
            var pricing := InvoicePricing(old(db.coupons), couponCode, variant.priceCents, now, faults.coupon);
            var row := InvoiceOrder(old(db.nextId), Orders.OrderNumber(now, randomText), email, product,
                                    variant, pricing, couponCode);
            && sent == Some(InvoiceRequest(env, row, product, variant))
            && db.nextId == old(db.nextId) + 1
            && InvoiceSettled(db, old(db.orders), row, reply, faults, r))
  {
    var g := InvoiceGuard(db.products, db.variants, productSlug, variantId, faults);
    if g.Failure? {
      return InvoiceError(g.error), None;
    }
    var (product, variant) := g.value;
    var pricing := InvoicePricing(db.coupons, couponCode, variant.priceCents, now, faults.coupon);
    var row := InvoiceOrder(db.nextId, Orders.OrderNumber(now, randomText), email, product,
                            variant, pricing, couponCode);
    InsertOrder(db, row);
    sent := Some(InvoiceRequest(env, row, product, variant));
    r := AwaitGateway(db, old(db.orders), row, reply, faults);
  }

  /** The insert of the new order under the next id. */
  method InsertOrder(db: Db, row: Order)
    requires db.Valid() && row.id == db.nextId
    modifies db
    ensures db.Valid() && db.orders == old(db.orders) + [row] && db.nextId == old(db.nextId) + 1
    ensures Rows.Keyed(old(db.orders), OrderId, row.id)
    ensures db.keys == old(db.keys) && db.coupons == old(db.coupons)
    ensures db.products == old(db.products) && db.variants == old(db.variants)
  {
    Rows.AppendFresh(db.orders, OrderId, db.nextId, row);
    Rows.RaiseBound(db.keys, KeyId, db.nextId, db.nextId + 1);
    db.orders := db.orders + [row];
    db.nextId := db.nextId + 1;
  }

  /** The `try` block of `createCardSetupInvoice` and its `catch`, once the
      order `row` has been appended to `before`. */
  method AwaitGateway(db: Db, ghost before: seq<Order>, row: Order, reply: Reply, faults: InvoiceFaults)
    returns (r: InvoiceResult)
    requires db.Valid() && db.nextId == row.id + 1 && row.licenseKeyId.None?
    requires Rows.Keyed(before, OrderId, row.id) && db.orders == before + [row]
    modifies db
    ensures db.Valid() && KeyWritesSettle(before, db.orders)
    ensures db.keys == old(db.keys) && db.coupons == old(db.coupons) && db.nextId == old(db.nextId)
    ensures db.products == old(db.products) && db.variants == old(db.variants)
    ensures InvoiceSettled(db, before, row, reply, faults, r)
  {
    if reply.Unreachable? || reply.body.JNull? {
      // The `catch`: one delete, and the error is thrown again.
      DeleteOrder(db, before, row, faults.deleteInCatch);
      r := InvoiceError(FailureMessage(reply));
      InvoiceTableSettles(before, row, db.orders, row.metadata);
    } else {
      r := SettleReply(db, before, row, reply.body, faults);
    }
  }

  /** The rest of the `try` block once the gateway answered with a body. */
  method SettleReply(db: Db, ghost before: seq<Order>, row: Order, result: Json, faults: InvoiceFaults)
    returns (r: InvoiceResult)
    requires db.Valid() && db.nextId == row.id + 1 && row.licenseKeyId.None? && !result.JNull?
    requires Rows.Keyed(before, OrderId, row.id) && db.orders == before + [row]
    modifies db
    ensures db.Valid() && KeyWritesSettle(before, db.orders)
    ensures db.keys == old(db.keys) && db.coupons == old(db.coupons) && db.nextId == old(db.nextId)
    ensures db.products == old(db.products) && db.variants == old(db.variants)
    ensures InvoiceSettled(db, before, row, Replied(result), faults, r)
  {
    var redirect := RedirectUrl(result);
    if !Truthy(Prop(Some(result), "success")) || !Truthy(redirect) {
      DeleteOrder(db, before, row, faults.deleteOnReply);
      // The error thrown in the `try` reaches the `catch`, which deletes again.
      DeleteOrder(db, before, row, faults.deleteInCatch);
      r := InvoiceError(FailureMessage(Replied(result)));
    } else {
      SaveGatewayMeta(db, before, row, GatewayMeta(row.metadata, result), faults.update);
      r := Invoiced(row.id, row.orderNumber, redirect.value, Prop(Some(result), "invoice_id"));
    }
    InvoiceTableSettles(before, row, db.orders, GatewayMeta(row.metadata, result));
  }

  /** The metadata update by order id after an accepted reply. */
  method SaveGatewayMeta(db: Db, ghost before: seq<Order>, row: Order, m: Metadata, fault: bool)
    requires db.Valid() && row.id < db.nextId && Rows.Keyed(before, OrderId, row.id)
    requires db.orders == before + [row]
    modifies db
    ensures db.Valid()
    ensures db.orders == before + [if fault then row else row.(metadata := m)]
    ensures db.keys == old(db.keys) && db.coupons == old(db.coupons) && db.nextId == old(db.nextId)
    ensures db.products == old(db.products) && db.variants == old(db.variants)
  {
    if !fault {
      var f := SetMetadata(m);
      assert forall i :: 0 <= i < |before| ==> !OrderIs(row.id)(before[i]);
      Rows.UpdateLast(before, row, OrderIs(row.id), f);
      Rows.UpdateKeyed(db.orders, OrderId, db.nextId, OrderIs(row.id), f);
      db.orders := Rows.UpdateWhere(db.orders, OrderIs(row.id), f);
    }
  }

  /** `.delete().eq("id", order.id)`: removes the order appended to
      `before`, if it is still there; a store error changes nothing. */
  method DeleteOrder(db: Db, ghost before: seq<Order>, row: Order, fault: bool)
    requires db.Valid() && row.id < db.nextId && Rows.Keyed(before, OrderId, row.id)
    requires db.orders == before + [row] || db.orders == before
    modifies db
    ensures db.Valid()
    ensures db.orders == if fault then old(db.orders) else before
    ensures db.keys == old(db.keys) && db.coupons == old(db.coupons) && db.nextId == old(db.nextId)
    ensures db.products == old(db.products) && db.variants == old(db.variants)
  {
    if !fault {
      assert forall i :: 0 <= i < |before| ==> !OrderIs(row.id)(before[i]);
      if db.orders == before {
        Rows.DeleteNone(before, OrderIs(row.id));
      } else {
        Rows.DeleteLast(before, row, OrderIs(row.id));
      }
      Rows.RaiseBound(before, OrderId, row.id, db.nextId);
      db.orders := Rows.DeleteWhere(db.orders, OrderIs(row.id));
    }
  }

  /** Each table the invoice can leave keeps the order invariant. */
  lemma InvoiceTableSettles(before: seq<Order>, row: Order, after: seq<Order>, m: Metadata)
    requires Rows.Keyed(before, OrderId, row.id) && row.licenseKeyId.None?
    requires after == before || after == before + [row] || after == before + [row.(metadata := m)]
    ensures KeyWritesSettle(before, after)
  {
    if after == before {
      Store.KeyWritesSettleRefl(before, row.id);
    } else if after == before + [row] {
      Store.InsertSettles(before, row.id, row);
    } else {
      Store.InsertSettles(before, row.id, row.(metadata := m));
    }
  }

  // ---------------------------------------------------------------------
  // The callbacks

  /** `result.success && result.validation?.valid`. */
  predicate Confirmed(body: Json) {
    Truthy(Prop(Some(body), "success")) && Truthy(Path(Some(body), ["validation", "valid"]))
  }

  /** The text of the key an order holds, read through its `license_key_id`;
      `undefined` when it holds none or the key is missing. */
  function HeldKeyText(keys: seq<LicenseKey>, o: Order): Option<string> {
    if o.licenseKeyId.None? then None
    else match FindKey(keys, o.licenseKeyId.value)
      case None => None
      case Some(k) => Some(k.key)
  }

  /** `order.metadata?.cardsetup_invoice_id || order.order_number`. */
  function InvoiceIdOf(o: Order): (v: Json)
    ensures Truthy(Prop(Some(JObj(o.metadata)), "cardsetup_invoice_id")) ==> v == o.metadata["cardsetup_invoice_id"]
    ensures !Truthy(Prop(Some(JObj(o.metadata)), "cardsetup_invoice_id")) ==> v == JStr(o.orderNumber)
  {
    var chain := OrChain([Prop(Some(JObj(o.metadata)), "cardsetup_invoice_id"), Some(JStr(o.orderNumber))]);
    chain.value
  }

  /** The key the callbacks insert. Both pass the order id where the
      variant id is declared and the variant id where the order id is, so
      the key row names the order as its variant and the variant as its
      order. */
  function CallbackKey(id: Id, o: Order, variants: seq<Variant>, draws: seq<LicenseKeys.Draw>, now: Time)
    : (k: LicenseKey)
    requires |draws| == LicenseKeys.DrawCount
    ensures k.variantId == o.id && k.assignedToOrder == Some(o.variantId)
  {
    IssuedKey(id, o.id, o.variantId, DurationOf(variants, o.variantId, false), draws, now)
  }

  /** `{...order.metadata, cardsetup_approval_code: …}`. */
  function ApprovalMeta(m: Metadata, body: Json): Metadata {
    SetMeta(m, "cardsetup_approval_code", Path(Some(body), ["validation", "approval_code"]))
  }

  datatype VerifyResult =
    | VerifyAlreadyCompleted(heldKey: Option<string>, orderNumber: string)
    | VerifyCompleted(licenseKey: string, orderNumber: string)
    | VerifyPending(orderNumber: string)
    | VerifyFailed(error: string)

  /** `verifyCardSetupOrder`: by the status of the order. "completed" reports
      the key it holds; "pending" asks the gateway to finalize the invoice and,
      on a confirmed payment, completes the order with a new key (without
      counting the coupon), and otherwise reports it still pending; any other
      status, "paid" included, is a failure. */
  twostate predicate Verified(db: Db, orderId: Id, reply: Reply, draws: seq<LicenseKeys.Draw>, now: Time,
                              faults: Faults, new r: VerifyResult, new sent: Option<Json>)
    reads db
    requires |draws| == LicenseKeys.DrawCount
  {
    var found := if faults.lookup then None else FindOrder(old(db.orders), orderId);
    if found.None? then r == VerifyFailed("Order not found") && sent.None? && Untouched(db)
    else
      var o := found.value;
      if o.status == Completed then
        r == VerifyAlreadyCompleted(HeldKeyText(old(db.keys), o), o.orderNumber) && sent.None? && Untouched(db)
      else if o.status != Pending then
        r == VerifyFailed("Payment was not completed") && sent.None? && Untouched(db)
      else
        && sent == Some(JObj(map["invoice_id" := InvoiceIdOf(o)]))
        && if reply.Replied? && Confirmed(reply.body) && !faults.insertKey then
             var key := CallbackKey(old(db.nextId), o, old(db.variants), draws, now);
             && r == VerifyCompleted(key.key, o.orderNumber)
             && db.keys == old(db.keys) + [key]
             && db.nextId == old(db.nextId) + 1
             && db.orders == Completion(old(db.orders), orderId, Completed,
                                        Orders.Patch(Some(key.id), None, Some(ApprovalMeta(o.metadata, reply.body))),
                                        now, faults.update)
             && db.coupons == old(db.coupons)
           else
             r == VerifyPending(o.orderNumber) && Untouched(db)
  }

  method VerifyCardSetupOrder(db: Db, orderId: Id, reply: Reply, draws: seq<LicenseKeys.Draw>, now: Time, faults: Faults)
    returns (r: VerifyResult, sent: Option<Json>)
    requires db.Valid() && |draws| == LicenseKeys.DrawCount
    modifies db
    ensures OrderInvariants(db)
    ensures Verified(db, orderId, reply, draws, now, faults, r, sent)
  {
    var found := if faults.lookup then None else FindOrder(db.orders, orderId);
    if found.None? {
      return VerifyFailed("Order not found"), None;
    }
    var o := found.value;
    if o.status == Completed {
      return VerifyAlreadyCompleted(HeldKeyText(db.keys, o), o.orderNumber), None;
    }
    if o.status != Pending {
      return VerifyFailed("Payment was not completed"), None;
    }
    sent := Some(JObj(map["invoice_id" := InvoiceIdOf(o)]));
    if reply.Unreachable? || !Confirmed(reply.body) {
      return VerifyPending(o.orderNumber), sent;
    }
    var key := IssueCallbackKey(db, o, ApprovalMeta(o.metadata, reply.body), draws, now, faults);
    if key.None? {
      // `licenseKey.id` throws; the `catch` reports the order as pending.
      return VerifyPending(o.orderNumber), sent;
    }
    r := VerifyCompleted(key.value.key, o.orderNumber);
  }

  /** The key the callbacks issue, created with the order and variant ids
      in swapped places; a failed insert changes nothing. */
  method CreateCallbackKey(db: Db, o: Order, draws: seq<LicenseKeys.Draw>, now: Time, fault: bool)
    returns (key: Option<LicenseKey>)
    requires db.Valid() && |draws| == LicenseKeys.DrawCount
    modifies db
    ensures db.Valid()
    ensures fault ==> key.None? && Untouched(db)
    ensures !fault ==>
      && key == Some(CallbackKey(old(db.nextId), o, old(db.variants), draws, now))
      && db.keys == old(db.keys) + [key.value]
      && db.nextId == old(db.nextId) + 1
    ensures db.orders == old(db.orders) && db.coupons == old(db.coupons)
    ensures db.products == old(db.products) && db.variants == old(db.variants)
  {
    var durationDays := DurationOf(db.variants, o.variantId, false);
    // Declared (variantId, orderId); called with (orderId, variantId).
    key := LicenseKeys.CreateLicenseKeyForOrder(db, o.id, o.variantId, durationDays, None, draws, now, fault);
  }

  /** The shared last step of both callbacks: issue the key, with the
      arguments swapped, and complete the order with it and `meta`. */
  method IssueCallbackKey(db: Db, o: Order, meta: Metadata, draws: seq<LicenseKeys.Draw>, now: Time, faults: Faults)
    returns (key: Option<LicenseKey>)
    requires db.Valid() && |draws| == LicenseKeys.DrawCount
    modifies db
    ensures OrderInvariants(db)
    ensures db.coupons == old(db.coupons)
    ensures faults.insertKey ==> key.None? && Untouched(db)
    ensures !faults.insertKey ==>
      && key == Some(CallbackKey(old(db.nextId), o, old(db.variants), draws, now))
      && db.keys == old(db.keys) + [key.value]
      && db.nextId == old(db.nextId) + 1
      && db.orders == Completion(old(db.orders), o.id, Completed, Orders.Patch(Some(key.value.id), None, Some(meta)),
                                 now, faults.update)
  {
    key := CreateCallbackKey(db, o, draws, now, faults.insertKey);
    if key.None? {
      return;
    }
    ghost var orders0, next0 := db.orders, db.nextId - 1;
    assert Rows.Keyed(db.orders, OrderId, db.nextId - 1);
    var _ := Complete(db, o.id, Completed, Orders.Patch(Some(key.value.id), None, Some(meta)), now, faults.update);
    assert KeyRefsFresh(orders0, next0) ==> KeyRefsFresh(db.orders, db.nextId);
  }

  /** The coupon an order's `metadata.coupon_id` names: only a uuid names
      one, since the increment by any other value fails in the store. */
  function CouponRef(m: Metadata): (c: Option<Id>)
    ensures c.Some? ==> "coupon_id" in m && m["coupon_id"] == JUuid(c.value)
    ensures c.None? ==> !("coupon_id" in m && m["coupon_id"].JUuid?)
  {
    if "coupon_id" in m && m["coupon_id"].JUuid? then Some(m["coupon_id"].id) else None
  }

  /** The invoice's own coupon is the one finalizing counts. */
  lemma InvoiceCouponCounted(p: Pricing, couponCode: Option<string>, price: int)
    ensures CouponRef(InvoiceMeta(p, couponCode, price)) == p.couponId
  {
  }

  function FinalizeMeta(m: Metadata, transactionId: string, body: Json): Metadata {
    ApprovalMeta(m["cardsetup_transaction_id" := JStr(transactionId)], body)
  }

  datatype FinalizeResult =
    | FinalizeAlreadyCompleted(heldKey: Option<string>, orderNumber: string)
    | Finalized(licenseKey: string, orderNumber: string)
    | FinalizeError(message: string)

  /** `finalizeCardSetupPayment`: a "completed" order reports its key
      without a gateway call; that key is read on its own, and a failed
      read reports no key. Any other order is finalized with the
      transaction: an unconfirmed payment marks it "failed"; a confirmed
      one completes it with a new key and counts its coupon. */
  twostate predicate FinalizeDone(db: Db, transactionId: string, orderId: Id, reply: Reply,
                                  draws: seq<LicenseKeys.Draw>, now: Time, faults: Faults,
                                  new r: FinalizeResult, new sent: Option<Json>)
    reads db
    requires |draws| == LicenseKeys.DrawCount
  {
    var found := if faults.lookup then None else FindOrder(old(db.orders), orderId);
    if found.None? then r == FinalizeError("Order not found") && sent.None? && Untouched(db)
    else
      var o := found.value;
      if o.status == Completed then
        && r == FinalizeAlreadyCompleted(if faults.keyRead then None else HeldKeyText(old(db.keys), o), o.orderNumber)
        && sent.None? && Untouched(db)
      else
        && sent == Some(CardSetupClient.FinalizeRequest(transactionId))
        && match reply
           case Unreachable(m) => r == FinalizeError(m) && Untouched(db)
           case Replied(body) =>
             if body.JNull? then r == FinalizeError(TypeErrorMessage) && Untouched(db)
             else if !Confirmed(body) then
               && r == FinalizeError(CardSetupClient.MessageOr(Path(Some(body), ["validation", "status"]),
                                                              "Payment validation failed"))
               && db.orders == Completion(old(db.orders), orderId, Failed, Orders.NoPatch, now, faults.update)
               && db.keys == old(db.keys) && db.coupons == old(db.coupons) && db.nextId == old(db.nextId)
             else if faults.insertKey then r == FinalizeError(TypeErrorMessage) && Untouched(db)
             else
               var key := CallbackKey(old(db.nextId), o, old(db.variants), draws, now);
               && r == Finalized(key.key, o.orderNumber)
               && db.keys == old(db.keys) + [key]
               && db.nextId == old(db.nextId) + 1
               && db.orders == Completion(old(db.orders), orderId, Completed,
                                          Orders.Patch(Some(key.id), None,
                                                       Some(FinalizeMeta(o.metadata, transactionId, body))),
                                          now, faults.update)
               && db.coupons == CouponsAfter(old(db.coupons), CouponRef(o.metadata), faults.coupon)
  }

  method FinalizeCardSetupPayment(db: Db, transactionId: string, orderId: Id, reply: Reply,
                                  draws: seq<LicenseKeys.Draw>, now: Time, faults: Faults)
    returns (r: FinalizeResult, sent: Option<Json>)
    requires db.Valid() && |draws| == LicenseKeys.DrawCount
    modifies db
    ensures OrderInvariants(db)
    ensures FinalizeDone(db, transactionId, orderId, reply, draws, now, faults, r, sent)
  {
    var found := if faults.lookup then None else FindOrder(db.orders, orderId);
    if found.None? {
      return FinalizeError("Order not found"), None;
    }
    var o := found.value;
    if o.status == Completed {
      var held := if faults.keyRead then None else HeldKeyText(db.keys, o);
      return FinalizeAlreadyCompleted(held, o.orderNumber), None;
    }
    sent := Some(CardSetupClient.FinalizeRequest(transactionId));
    if reply.Unreachable? {
      return FinalizeError(reply.message), sent;
    }
    var result := reply.body;
    if result.JNull? {
      return FinalizeError(TypeErrorMessage), sent;
    }
    if !Confirmed(result) {
      var _ := Complete(db, orderId, Failed, Orders.NoPatch, now, faults.update);
      r := FinalizeError(CardSetupClient.MessageOr(Path(Some(result), ["validation", "status"]), "Payment validation failed"));
      return;
    }
    var key := IssueCallbackKey(db, o, FinalizeMeta(o.metadata, transactionId, result), draws, now, faults);
    if key.None? {
      return FinalizeError(TypeErrorMessage), sent;
    }
    var coupon := CouponRef(o.metadata);
    if coupon.Some? {
      var _ := Coupons.IncrementCouponUsage(db, coupon.value, faults.coupon);
    }
    r := Finalized(key.value.key, o.orderNumber);
  }
}
