/** lib/db/orders.ts: order numbers and the order-table queries and
    writes. */
module Orders {
  import opened Wrappers
  import opened Store
  import Rows
  import Text
  import Radix

  /** The upper-cased base-36 rendering of `Date.now()`. */
  function TimestampText(now: nat): string {
    Text.ToUpper(Radix.ToRadix(now, 36))
  }

  /** `Math.random().toString(36).substring(2, 6).toUpperCase()`, where
      `randomText` is what `toString(36)` printed ("0." and then digits). */
  function RandomText(randomText: string): string {
    Text.ToUpper(Text.Substring(randomText, 2, 6))
  }

  /** `generateOrderNumber`: "JC-", the timestamp in base 36, "-", and up to
      four characters of the random number, all upper-cased. */
  function OrderNumber(now: nat, randomText: string): string {
    "JC-" + TimestampText(now) + "-" + RandomText(randomText)
  }

  /** Upper-casing keeps every base-36 digit's value. */
  lemma {:induction false} UpperKeepsValue(s: string)
    requires Radix.AllDigits(s, 36)
    ensures Radix.AllDigits(Text.ToUpper(s), 36)
    ensures Radix.FromRadix(Text.ToUpper(s), 36) == Radix.FromRadix(s, 36)
  {
    var u := Text.ToUpper(s);
    if s != [] {
      UpperKeepsValue(s[..|s| - 1]);
      assert u[..|u| - 1] == Text.ToUpper(s[..|s| - 1]);
    }
  }

  /** The timestamp written into an order number, read back: the text
      between "JC-" and the next "-", as a base-36 number. */
  function OrderTimestamp(orderNumber: string): Option<nat> {
    if |orderNumber| < 3 || orderNumber[..3] != "JC-" then None
    else
      var rest := orderNumber[3..];
      var n := Text.IndexOfChar(rest, '-');
      if n == 0 || !Radix.AllDigits(rest[..n], 36) then None
      else Some(Radix.FromRadix(rest[..n], 36))
  }

  /** The timestamp part consists of upper-case base-36 digits that read
      back as the timestamp. */
  lemma TimestampDigits(now: nat)
    ensures var t := TimestampText(now);
      && |t| >= 1
      && Radix.AllDigits(t, 36)
      && Radix.FromRadix(t, 36) == now
      && (forall i :: 0 <= i < |t| ==> t[i] != '-' && !('a' <= t[i] <= 'z'))
  {
    var r := Radix.ToRadix(now, 36);
    var t := TimestampText(now);
    UpperKeepsValue(r);
    Radix.RadixRoundTrip(now, 36);
    forall i | 0 <= i < |t| ensures t[i] != '-' && !('a' <= t[i] <= 'z') {
      UpperDigit(r[i]);
    }
  }

  /** An upper-cased digit is no dash and no lower-case letter. */
  lemma UpperDigit(c: char)
    requires Radix.IsDigit(c, 36)
    ensures var u := Text.UpperChar(c); u != '-' && !('a' <= u <= 'z')
  {
  }

  lemma SplitAtDash(t: string, x: string)
    requires forall i :: 0 <= i < |t| ==> t[i] != '-'
    ensures Text.IndexOfChar(t + "-" + x, '-') == |t|
    ensures (t + "-" + x)[..|t|] == t
  {
    var rest := t + "-" + x;
    assert forall i :: 0 <= i < |t| ==> rest[i] == t[i];
    assert rest[|t|] == '-';
  }

  /** An order number has the documented shape, and its timestamp part
      reads back as the time it was issued at. */
  lemma OrderNumberShape(now: nat, randomText: string)
    ensures var s := OrderNumber(now, randomText);
      && s[..3] == "JC-"
      && |RandomText(randomText)| <= 4
      && |s| == 4 + |TimestampText(now)| + |RandomText(randomText)|
      && s[3 + |TimestampText(now)|] == '-'
      && (forall i :: 0 <= i < |TimestampText(now)| ==>
            Radix.IsDigit(TimestampText(now)[i], 36) && !('a' <= TimestampText(now)[i] <= 'z'))
      && OrderTimestamp(s) == Some(now)
  {
    var t := TimestampText(now);
    var x := RandomText(randomText);
    var s := OrderNumber(now, randomText);
    TimestampDigits(now);
    Text.Regroup("JC-", t, "-", x);
    assert s[3 + |t|] == (t + "-" + x)[|t|];
    TimestampReadsBack(now, randomText);
  }

  lemma TimestampReadsBack(now: nat, randomText: string)
    ensures OrderTimestamp(OrderNumber(now, randomText)) == Some(now)
  {
    var t := TimestampText(now);
    var x := RandomText(randomText);
    var s := OrderNumber(now, randomText);
    TimestampDigits(now);
    SplitAtDash(t, x);
    Text.Regroup("JC-", t, "-", x);
    assert s[3..] == t + "-" + x;
  }

  /** Two order numbers issued at different milliseconds differ, whatever
      the random parts. */
  lemma OrderNumbersDiffer(now1: nat, r1: string, now2: nat, r2: string)
    requires now1 != now2
    ensures OrderNumber(now1, r1) != OrderNumber(now2, r2)
  {
    OrderNumberShape(now1, r1);
    OrderNumberShape(now2, r2);
  }

  /** The row `createOrder` inserts: always "pending", metadata `{}` when
      none is given. */
  function NewOrder(
    id: Id, orderNumber: string, email: string, productId: Id, variantId: Id, amountCents: int,
    paymentIntentId: Option<string>, checkoutSessionId: Option<string>, metadata: Option<Metadata>): Order
  {
    Order(id, orderNumber, email, productId, variantId, None, amountCents, Pending,
          paymentIntentId, checkoutSessionId, None, metadata.GetOr(map[]), None)
  }

  /** `createOrder`: inserts one pending order with a fresh id and a
      generated order number; a store error inserts nothing. */
  method CreateOrder(
    db: Db, email: string, productId: Id, variantId: Id, amountCents: int,
    paymentIntentId: Option<string>, checkoutSessionId: Option<string>, metadata: Option<Metadata>,
    now: nat, randomText: string, fault: bool) returns (r: Option<Order>)
    requires db.Valid()
    modifies db
    ensures db.Valid()
    ensures r.None? <==> fault
    ensures fault ==> db.orders == old(db.orders) && db.nextId == old(db.nextId)
    ensures r.Some? ==>
      && r.value == NewOrder(old(db.nextId), OrderNumber(now, randomText), email, productId, variantId,
                             amountCents, paymentIntentId, checkoutSessionId, metadata)
      && db.orders == old(db.orders) + [r.value]
      && db.nextId == old(db.nextId) + 1
    ensures r.Some? ==> r.value.status == Pending && r.value.licenseKeyId.None? && r.value.paidAt.None?
    ensures r.Some? ==> r.value.metadata == if metadata.Some? then metadata.value else map[]
    ensures KeyWritesSettle(old(db.orders), db.orders)
    ensures db.keys == old(db.keys) && db.coupons == old(db.coupons)
    ensures db.products == old(db.products) && db.variants == old(db.variants)
  {
    Store.KeyWritesSettleRefl(db.orders, db.nextId);
    if fault {
      return None;
    }
    var row := NewOrder(db.nextId, OrderNumber(now, randomText), email, productId, variantId,
                        amountCents, paymentIntentId, checkoutSessionId, metadata);
    Rows.AppendFresh(db.orders, OrderId, db.nextId, row);
    Rows.RaiseBound(db.keys, KeyId, db.nextId, db.nextId + 1);
    Store.InsertSettles(db.orders, db.nextId, row);
    db.orders := db.orders + [row];
    db.nextId := db.nextId + 1;
    r := Some(row);
  }

  function HasPaymentIntent(pi: string): Order -> bool {
    (o: Order) => o.paymentIntentId == Some(pi)
  }

  function HasCheckoutSession(session: string): Order -> bool {
    (o: Order) => o.checkoutSessionId == Some(session)
  }

  /** `getOrderByPaymentIntent`: exact match with `.single()`, so `null`
      unless exactly one order carries the intent (or on a store error). */
  function GetOrderByPaymentIntent(orders: seq<Order>, pi: string, fault: bool): (r: Option<Order>)
    ensures r.Some? <==> !fault && |Rows.Filter(orders, HasPaymentIntent(pi))| == 1
    ensures r.Some? ==> r.value in orders && r.value.paymentIntentId == Some(pi)
  {
    if fault then None else Rows.Single(orders, HasPaymentIntent(pi))
  }

  /** `getOrderByCheckoutSession`, the same lookup keyed by session id. */
  function GetOrderByCheckoutSession(orders: seq<Order>, session: string, fault: bool): (r: Option<Order>)
    ensures r.Some? <==> !fault && |Rows.Filter(orders, HasCheckoutSession(session))| == 1
    ensures r.Some? ==> r.value in orders && r.value.checkoutSessionId == Some(session)
  {
    if fault then None else Rows.Single(orders, HasCheckoutSession(session))
  }

  /** The optional fields a caller of `updateOrderStatus` may supply; `None`
      leaves the column alone. */
  datatype Patch = Patch(licenseKeyId: Option<Id>, paymentMethod: Option<string>, metadata: Option<Metadata>)

  const NoPatch := Patch(None, None, None)

  /** The row update `updateOrderStatus` sends. */
  function ApplyStatus(status: OrderStatus, patch: Patch, now: Time): Order -> Order {
    (o: Order) => o.(
      status := status,
      licenseKeyId := if patch.licenseKeyId.Some? then patch.licenseKeyId else o.licenseKeyId,
      paymentMethod := if patch.paymentMethod.Some? then patch.paymentMethod else o.paymentMethod,
      metadata := if patch.metadata.Some? then patch.metadata.value else o.metadata,
      paidAt := if status.Settled() then Some(now) else o.paidAt)
  }

  /** What an update through `updateOrderStatus` does to a row: the
      status, `paid_at` exactly for "paid" and "completed", the supplied
      fields (metadata replaced, not merged), and nothing else. */
  lemma ApplyStatusEffect(o: Order, status: OrderStatus, patch: Patch, now: Time)
    ensures var u := ApplyStatus(status, patch, now)(o);
      && u.status == status
      && (status == Paid || status == Completed ==> u.paidAt == Some(now))
      && (status != Paid && status != Completed ==> u.paidAt == o.paidAt)
      && (patch.metadata.Some? ==> u.metadata == patch.metadata.value)
      && (patch.metadata.None? ==> u.metadata == o.metadata)
      && (patch.licenseKeyId.None? ==> u.licenseKeyId == o.licenseKeyId)
      && (patch.licenseKeyId.Some? ==> u.licenseKeyId == patch.licenseKeyId)
      && u.(status := o.status, paidAt := o.paidAt, metadata := o.metadata,
            licenseKeyId := o.licenseKeyId, paymentMethod := o.paymentMethod) == o
  {
  }

  /** `updateOrderStatus`: writes the status and the supplied fields to the
      order with that id, and returns the updated row; `null` when there is
      no such order or the store fails, and then nothing changes. */
  method UpdateOrderStatus(db: Db, orderId: Id, status: OrderStatus, patch: Patch, now: Time, fault: bool)
    returns (r: Option<Order>)
    requires db.Valid()
    modifies db
    ensures db.Valid()
    ensures var o := FindOrder(old(db.orders), orderId);
      if fault || o.None? then
        r.None? && db.orders == old(db.orders)
      else
        && r == Some(ApplyStatus(status, patch, now)(o.value))
        && db.orders == Rows.UpdateWhere(old(db.orders), OrderIs(orderId), ApplyStatus(status, patch, now))
    ensures db.keys == old(db.keys) && db.coupons == old(db.coupons) && db.nextId == old(db.nextId)
    ensures db.products == old(db.products) && db.variants == old(db.variants)
  {
    var o := FindOrder(db.orders, orderId);
    if fault || o.None? {
      return None;
    }
    var f := ApplyStatus(status, patch, now);
    Rows.UpdateKeyed(db.orders, OrderId, db.nextId, OrderIs(orderId), f);
    db.orders := Rows.UpdateWhere(db.orders, OrderIs(orderId), f);
    r := Some(f(o.value));
  }

  /** An order with its product, variant and license key, each `None` when
      its lookup found nothing. */
  datatype OrderDetails = OrderDetails(
    order: Order, product: Option<Product>, variant: Option<Variant>, licenseKey: Option<LicenseKey>)

  /** `getOrderWithDetails`: `null` for a missing order; the key is looked
      up only when the order carries a key id. */
  function GetOrderWithDetails(
    orders: seq<Order>, products: seq<Product>, variants: seq<Variant>, keys: seq<LicenseKey>,
    orderId: Id, fault: bool): (r: Option<OrderDetails>)
    ensures r.None? <==> fault || FindOrder(orders, orderId).None?
    ensures r.Some? ==> r.value.order in orders && r.value.order.id == orderId
    ensures r.Some? && r.value.order.licenseKeyId.None? ==> r.value.licenseKey.None?
    ensures r.Some? && r.value.licenseKey.Some? ==>
      r.value.licenseKey.value in keys && r.value.order.licenseKeyId == Some(r.value.licenseKey.value.id)
    ensures r.Some? && r.value.product.Some? ==> r.value.product.value.id == r.value.order.productId
    ensures r.Some? && r.value.variant.Some? ==> r.value.variant.value.id == r.value.order.variantId
  {
    if fault then None
    else match FindOrder(orders, orderId)
      case None => None
      case Some(o) =>
        var key := if o.licenseKeyId.Some? then Rows.Single(keys, KeyIs(o.licenseKeyId.value)) else None;
        Some(OrderDetails(o, Rows.Single(products, ProductIs(o.productId)),
                          Rows.Single(variants, VariantIs(o.variantId)), key))
  }

  function IsSettledOrder(): Order -> bool {
    (o: Order) => o.status.Settled()
  }

  /** Whether `a` may come before `b` under `.order("paid_at", { ascending:
      false })`: later payments first, and a null `paid_at` (an order set
      "paid" without one) ahead of all, as PostgreSQL sorts nulls in a
      descending order. */
  predicate PaidFirst(a: Order, b: Order) {
    a.paidAt.None? || (b.paidAt.Some? && a.paidAt.value >= b.paidAt.value)
  }

  predicate NewestFirst(s: seq<Order>) {
    forall i, j :: 0 <= i < j < |s| ==> PaidFirst(s[i], s[j])
  }

  /** `PaidFirst` as the order `.order("paid_at", { ascending: false })`
      sorts by: it compares any two orders, transitively. */
  function ByPaid(): (Order, Order) -> bool {
    (a: Order, b: Order) => PaidFirst(a, b)
  }

  lemma ByPaidTotal()
    ensures Rows.TotalOrder(ByPaid())
  {
  }

  /** `.order("paid_at", { ascending: false })`: the same orders, newest
      payment first. */
  function SortByPaid(s: seq<Order>): (r: seq<Order>)
    ensures NewestFirst(r)
    ensures multiset(r) == multiset(s)
    ensures |r| == |s|
  {
    ByPaidTotal();
    var r := Rows.SortBy(s, ByPaid());
    assert forall i, j :: 0 <= i < j < |r| ==> ByPaid()(r[i], r[j]);
    r
  }

  /** The `limit` of `getCompletedOrders` when the caller gives none. */
  const DefaultCompletedLimit: nat := 100

  /** `getCompletedOrders`: the paid and completed orders, most recently
      paid first, at most `limit` of them (100 by default); none when the
      query fails. */
  function GetCompletedOrders(orders: seq<Order>, limit: Option<nat>, fault: bool): (r: seq<Order>)
    ensures var n := limit.GetOr(DefaultCompletedLimit);
      var all := Rows.Filter(orders, IsSettledOrder());
      && (fault ==> r == [])
      && (!fault ==> |r| == if |all| <= n then |all| else n)
      && (!fault ==> multiset(r) <= multiset(all))
      && (!fault && |all| <= n ==> multiset(r) == multiset(all))
    ensures forall i :: 0 <= i < |r| ==> r[i] in orders && r[i].status.Settled()
    ensures NewestFirst(r)
    ensures !fault ==> forall j :: 0 <= j < |orders| && orders[j].status.Settled() && orders[j] !in r ==>
      forall i :: 0 <= i < |r| ==> PaidFirst(r[i], orders[j])
  {
    if fault then []
    else
      var n := limit.GetOr(DefaultCompletedLimit);
      var all := Rows.Filter(orders, IsSettledOrder());
      var sorted := SortByPaid(all);
      var r := if |sorted| <= n then sorted else sorted[..n];
      Rows.TakeSubMultiset(sorted, |r|);
      assert r == sorted[..|r|];
      NewestPrefixFrom(orders, all, sorted, r);
      NewestPrefixFirst(orders, all, sorted, r);
      r
  }

  /** The first orders of a permutation of the settled orders are settled
      orders. */
  lemma NewestPrefixFrom(orders: seq<Order>, all: seq<Order>, sorted: seq<Order>, r: seq<Order>)
    requires all == Rows.Filter(orders, IsSettledOrder())
    requires multiset(sorted) == multiset(all) && r <= sorted
    ensures forall i :: 0 <= i < |r| ==> r[i] in orders && r[i].status.Settled()
  {
    forall i | 0 <= i < |r| ensures r[i] in orders && r[i].status.Settled() {
      assert r[i] == sorted[i];
      assert r[i] in multiset(all);
      var k :| 0 <= k < |all| && all[k] == r[i];
    }
  }

  /** A settled order left out of the first orders of a newest-first
      permutation of the settled orders comes after all of them. */
  lemma NewestPrefixFirst(orders: seq<Order>, all: seq<Order>, sorted: seq<Order>, r: seq<Order>)
    requires all == Rows.Filter(orders, IsSettledOrder())
    requires NewestFirst(sorted) && multiset(sorted) == multiset(all) && r <= sorted
    ensures NewestFirst(r)
    ensures forall j :: 0 <= j < |orders| && orders[j].status.Settled() && orders[j] !in r ==>
      forall i :: 0 <= i < |r| ==> PaidFirst(r[i], orders[j])
  {
    NewestPrefix(sorted, r);
    forall j | 0 <= j < |orders| && orders[j].status.Settled() && orders[j] !in r
      ensures forall i :: 0 <= i < |r| ==> PaidFirst(r[i], orders[j])
    {
      assert IsSettledOrder()(orders[j]);
      assert orders[j] in multiset(sorted);
      var k :| 0 <= k < |sorted| && sorted[k] == orders[j];
      assert k >= |r|;
      PrefixBeforeRest(sorted, r, k);
    }
  }

  /** A first part of a newest-first list is newest first. */
  lemma NewestPrefix(sorted: seq<Order>, r: seq<Order>)
    requires NewestFirst(sorted) && r <= sorted
    ensures NewestFirst(r)
  {
    assert forall i :: 0 <= i < |r| ==> r[i] == sorted[i];
  }

  /** Every order of a first part of a newest-first list may precede every
      later one. */
  lemma PrefixBeforeRest(sorted: seq<Order>, r: seq<Order>, k: nat)
    requires NewestFirst(sorted) && r <= sorted && |r| <= k < |sorted|
    ensures forall i :: 0 <= i < |r| ==> PaidFirst(r[i], sorted[k])
  {
    assert forall i :: 0 <= i < |r| ==> r[i] == sorted[i];
  }

  /** Of two settled orders, a limit of one keeps the later payment,
      whichever was inserted first. */
  lemma LatestPaidKept(a: Order, b: Order)
    requires a.status.Settled() && b.status.Settled()
    requires a.paidAt.Some? && b.paidAt.Some? && a.paidAt.value < b.paidAt.value
    ensures GetCompletedOrders([a, b], Some(1), false) == [b]
  {
    var r := GetCompletedOrders([a, b], Some(1), false);
    assert IsSettledOrder()(a) && IsSettledOrder()(b);
    assert Rows.Filter([a, b], IsSettledOrder()) == [a, b];
  }

}
