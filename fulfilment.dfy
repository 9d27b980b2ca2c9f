/** What the payment triggers (the Stripe webhook, the completion route, the
    admin reprocess and the Card Setup callbacks) share: which of their store
    calls fail, the variant duration they read, the key they insert, and the
    row and coupon writes they make. */
module Fulfilment {
  import opened Wrappers
  import opened Store
  import Rows
  import LicenseKeys
  import Orders
  import Coupons

  /** Which store calls of one trigger run report an error: the order
      lookup, the variant lookup, the key insert, the order update, the
      coupon increment and the separate read of the key an already
      completed order holds. An error result is what the client library returns
      instead of data; the callers turn it into `null` or `false`. */
  datatype Faults = Faults(lookup: bool, variant: bool, insertKey: bool, update: bool, coupon: bool,
                        keyRead: bool)

  const NoFaults := Faults(false, false, false, false, false, false)

  /** A string the source tests for truthiness: present and non-empty. */
  predicate Present(s: Option<string>) {
    s.Some? && s.value != ""
  }

  /** `variant?.duration_days || null`: the duration of the order's variant,
      `null` for a lifetime variant, a zero duration, a missing variant or a
      failed lookup. */
  function DurationOf(variants: seq<Variant>, variantId: Id, fault: bool): (d: Option<int>)
    ensures d.Some? ==> d.value != 0 && !fault
    ensures d.Some? ==> exists i :: 0 <= i < |variants| && variants[i].id == variantId && variants[i].durationDays == d
  {
    if fault then None
    else match Rows.Single(variants, VariantIs(variantId))
      case None => None
      case Some(v) =>
        if v.durationDays.Some? && v.durationDays.value != 0 then
          var i :| 0 <= i < |variants| && variants[i] == v;
          v.durationDays
        else None
  }

  /** The row `createLicenseKeyForOrder` inserts for a trigger: a generated
      key, already "used", assigned to the order now. */
  function IssuedKey(id: Id, variantId: Id, orderId: Id, durationDays: Option<int>,
                     draws: seq<LicenseKeys.Draw>, now: Time): LicenseKey
    requires |draws| == LicenseKeys.DrawCount
  {
    LicenseKey(id, variantId, LicenseKeys.KeyFromDraws(draws), Used, Some(orderId), Some(now),
               LicenseKeys.ExpiresAt(durationDays, now))
  }

  /** The trigger's `createLicenseKeyForOrder(variant_id, order.id, …)` call,
      with the duration read from the order's variant first: the issued row
      appended and the id counter advanced, or nothing changed when the
      insert fails. */
  method IssueKey(db: Db, o: Order, variantFault: bool, draws: seq<LicenseKeys.Draw>, now: Time, fault: bool)
    returns (key: Option<LicenseKey>)
    requires db.Valid() && |draws| == LicenseKeys.DrawCount
    modifies db
    ensures db.Valid()
    ensures fault ==> key.None? && Untouched(db)
    ensures !fault ==>
      && key == Some(IssuedKey(old(db.nextId), o.variantId, o.id,
                               DurationOf(old(db.variants), o.variantId, variantFault), draws, now))
      && db.keys == old(db.keys) + [key.value]
      && db.nextId == old(db.nextId) + 1
    ensures db.orders == old(db.orders) && db.coupons == old(db.coupons)
    ensures db.products == old(db.products) && db.variants == old(db.variants)
  {
    var durationDays := DurationOf(db.variants, o.variantId, variantFault);
    key := LicenseKeys.CreateLicenseKeyForOrder(db, o.variantId, o.id, durationDays, None, draws, now, fault);
  }

  /** The order table after a completing write to one order (unchanged when
      the write reports an error). */
  function Completion(orders: seq<Order>, id: Id, status: OrderStatus, patch: Orders.Patch, now: Time, fault: bool)
    : seq<Order>
  {
    if fault then orders else Rows.UpdateWhere(orders, OrderIs(id), Orders.ApplyStatus(status, patch, now))
  }

  /** The coupon table after an optional increment. */
  function CouponsAfter(coupons: seq<Coupon>, couponId: Option<Id>, fault: bool): seq<Coupon> {
    if couponId.Some? && !fault then Rows.UpdateWhere(coupons, CouponIs(couponId.value), Coupons.BumpUses())
    else coupons
  }

  /** An order found by any query is the one the lookup by its id finds. */
  lemma FindMember(orders: seq<Order>, bound: nat, o: Order)
    requires Rows.Keyed(orders, OrderId, bound) && o in orders
    ensures FindOrder(orders, o.id) == Some(o)
  {
    Rows.SingleById(orders, OrderId, bound, OrderIs(o.id), o.id);
    var m := Rows.Filter(orders, OrderIs(o.id));
    assert o in m;
  }

  /** A completing write settles row by row and keeps every key held by at
      most one order, when the key it writes (if any) was just issued. */
  lemma CompletionKeepsInvariants(orders: seq<Order>, bound: nat, id: Id, status: OrderStatus,
                                  patch: Orders.Patch, now: Time, fault: bool)
    requires Rows.Keyed(orders, OrderId, bound)
    requires status.Settled() || patch.licenseKeyId.None?
    requires patch.licenseKeyId.None? || patch.licenseKeyId == Some(bound)
    ensures var after := Completion(orders, id, status, patch, now, fault);
      && KeyWritesSettleInPlace(orders, after)
      && Rows.Keyed(after, OrderId, bound)
      && (KeyRefsFresh(orders, bound) ==> KeyRefsFresh(after, bound + 1))
      && (KeyRefsFresh(orders, bound) && patch.licenseKeyId.None? ==> KeyRefsFresh(after, bound))
  {
    var f := Orders.ApplyStatus(status, patch, now);
    var after := Completion(orders, id, status, patch, now, fault);
    if !fault {
      Store.UpdateSettlesInPlace(orders, id, f);
      Rows.UpdateKeyed(orders, OrderId, bound, OrderIs(id), f);
      if KeyRefsFresh(orders, bound) {
        Store.FreshKeyWrite(orders, bound, id, f);
        if patch.licenseKeyId.None? {
          Store.KeyRefsKept(orders, after, bound, bound);
        }
      }
    } else if KeyRefsFresh(orders, bound) {
      Store.KeyRefsKept(orders, orders, bound, bound + 1);
    }
  }

  /** The completing write of a trigger, through `updateOrderStatus`: the
      key it writes, if any, is the one just issued (the id below
      `nextId`), and a key is only written with a settling status. */
  method Complete(db: Db, id: Id, status: OrderStatus, patch: Orders.Patch, now: Time, fault: bool)
    returns (r: Option<Order>)
    requires db.Valid()
    requires status.Settled() || patch.licenseKeyId.None?
    requires patch.licenseKeyId.None? ||
      (db.nextId > 0 && patch.licenseKeyId == Some(db.nextId - 1) && Rows.Keyed(db.orders, OrderId, db.nextId - 1))
    modifies db
    ensures db.Valid()
    ensures db.orders == Completion(old(db.orders), id, status, patch, now, fault)
    ensures r.None? <==> fault || FindOrder(old(db.orders), id).None?
    ensures r.Some? ==> r.value.status == status
    ensures KeyWritesSettleInPlace(old(db.orders), db.orders)
    ensures patch.licenseKeyId.None? && KeyRefsFresh(old(db.orders), db.nextId) ==> KeyRefsFresh(db.orders, db.nextId)
    ensures patch.licenseKeyId.Some? && db.nextId > 0 && KeyRefsFresh(old(db.orders), db.nextId - 1) ==>
      KeyRefsFresh(db.orders, db.nextId)
    ensures db.keys == old(db.keys) && db.coupons == old(db.coupons) && db.nextId == old(db.nextId)
    ensures db.products == old(db.products) && db.variants == old(db.variants)
  {
    if patch.licenseKeyId.Some? {
      CompletionKeepsInvariants(db.orders, db.nextId - 1, id, status, patch, now, fault);
    } else {
      CompletionKeepsInvariants(db.orders, db.nextId, id, status, patch, now, fault);
    }
    r := Orders.UpdateOrderStatus(db, id, status, patch, now, fault);
    if r.Some? {
      Orders.ApplyStatusEffect(FindOrder(old(db.orders), id).value, status, patch, now);
    }
  }

  /** A lookup that found exactly one order finds that order again, as
      rewritten, after a write to it that keeps what the lookup matches. */
  lemma SingleAfterUpdate(orders: seq<Order>, q: Order -> bool, o: Order, f: Order -> Order)
    requires Rows.Single(orders, q) == Some(o)
    requires forall x :: q(f(x)) == q(x)
    ensures Rows.Single(Rows.UpdateWhere(orders, OrderIs(o.id), f), q) == Some(f(o))
  {
    Rows.FilterUpdate(orders, OrderIs(o.id), f, q);
    var m := Rows.Filter(orders, q);
    assert m == [o];
  }

  /** The invariants every trigger keeps: ids stay a primary key, a row
      whose key id changed is settled, and no key is held by two orders. */
  twostate predicate OrderInvariants(db: Db)
    reads db
  {
    && db.Valid()
    && KeyWritesSettleInPlace(old(db.orders), db.orders)
    && (KeyRefsFresh(old(db.orders), old(db.nextId)) ==> KeyRefsFresh(db.orders, db.nextId))
    && db.products == old(db.products) && db.variants == old(db.variants)
  }

  /** A successful settling write to the order a payment intent finds leaves
      it findable by that intent, and settled: a later trigger for the same
      payment is turned away by its "already processed" guard. */
  lemma IntentLookupAfterSettle(orders: seq<Order>, pi: string, o: Order, status: OrderStatus,
                                patch: Orders.Patch, now: Time)
    requires Orders.GetOrderByPaymentIntent(orders, pi, false) == Some(o) && status.Settled()
    ensures var found := Orders.GetOrderByPaymentIntent(Completion(orders, o.id, status, patch, now, false), pi, false);
      found == Some(Orders.ApplyStatus(status, patch, now)(o)) && found.value.status.Settled()
  {
    SingleAfterUpdate(orders, Orders.HasPaymentIntent(pi), o, Orders.ApplyStatus(status, patch, now));
  }

  /** The same for the order a checkout session finds. */
  lemma SessionLookupAfterSettle(orders: seq<Order>, session: string, o: Order, status: OrderStatus,
                                 patch: Orders.Patch, now: Time)
    requires Orders.GetOrderByCheckoutSession(orders, session, false) == Some(o) && status.Settled()
    ensures var found := Orders.GetOrderByCheckoutSession(Completion(orders, o.id, status, patch, now, false), session, false);
      found == Some(Orders.ApplyStatus(status, patch, now)(o)) && found.value.status.Settled()
  {
    SingleAfterUpdate(orders, Orders.HasCheckoutSession(session), o, Orders.ApplyStatus(status, patch, now));
  }
}
