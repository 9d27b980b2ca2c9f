/** app/api/complete-order/route.ts: the client-side completion call made
    from the checkout success page. It takes the payment intent id on trust:
    the gateway is never asked whether the payment succeeded. */
module CompleteOrder {
  import opened Wrappers
  import opened Store
  import Orders
  import LicenseKeys
  import opened Fulfilment
  import StripeWebhook

  /** The request body: unreadable JSON, or the (possibly missing)
      `paymentIntentId` field. */
  datatype Request = Unreadable | Request(paymentIntentId: Option<string>)

  datatype Response =
    | Rejected(status: int, error: string)
    | AlreadyCompleted(order: Order)
    | Done(orderNumber: string, licenseKey: string)
  {
    function Status(): int {
      if Rejected? then status else 200
    }
  }

  /** The store after a successful completion call for order `o`: one key
      issued to it and the order set to "paid" with that key and the
      payment method "card"; the metadata and the coupon are not touched. */
  twostate predicate MarkedPaid(db: Db, o: Order, draws: seq<LicenseKeys.Draw>, now: Time, faults: Faults)
    reads db
  {
    && |draws| == LicenseKeys.DrawCount
    && db.keys == old(db.keys) + [IssuedKey(old(db.nextId), o.variantId, o.id,
                                            DurationOf(old(db.variants), o.variantId, faults.variant), draws, now)]
    && db.nextId == old(db.nextId) + 1
    && db.orders == Completion(old(db.orders), o.id, Paid,
                               Orders.Patch(Some(old(db.nextId)), Some("card"), None), now, faults.update)
    && db.coupons == old(db.coupons)
  }

  method Post(db: Db, req: Request, draws: seq<LicenseKeys.Draw>, now: Time, faults: Faults)
    returns (resp: Response)
    requires db.Valid() && |draws| == LicenseKeys.DrawCount
    modifies db
    ensures OrderInvariants(db)
    ensures req.Unreadable? ==> resp == Rejected(500, "Internal server error") && Untouched(db)
    ensures req.Request? && !Present(req.paymentIntentId) ==>
      resp == Rejected(400, "Missing payment intent ID") && Untouched(db)
    ensures req.Request? && Present(req.paymentIntentId) ==>
      match Orders.GetOrderByPaymentIntent(old(db.orders), req.paymentIntentId.value, faults.lookup)
      case None => resp == Rejected(404, "Order not found") && Untouched(db)
      case Some(o) =>
        if o.status.Settled() then resp == AlreadyCompleted(o) && Untouched(db)
        else if faults.insertKey then resp == Rejected(500, "Failed to create license key") && Untouched(db)
        else resp == Done(o.orderNumber, LicenseKeys.KeyFromDraws(draws)) && MarkedPaid(db, o, draws, now, faults)
  {
    if req.Unreadable? {
      return Rejected(500, "Internal server error");
    }
    if !Present(req.paymentIntentId) {
      return Rejected(400, "Missing payment intent ID");
    }
    var order := Orders.GetOrderByPaymentIntent(db.orders, req.paymentIntentId.value, faults.lookup);
    if order.None? {
      return Rejected(404, "Order not found");
    }
    var o := order.value;
    if o.status == Paid || o.status == Completed {
      return AlreadyCompleted(o);
    }
    resp := MarkPaid(db, o, draws, now, faults);
  }

  /** The steps after the guards: issue a key for `o` and mark it paid. */
  method MarkPaid(db: Db, o: Order, draws: seq<LicenseKeys.Draw>, now: Time, faults: Faults)
    returns (resp: Response)
    requires db.Valid() && |draws| == LicenseKeys.DrawCount && o in db.orders
    modifies db
    ensures OrderInvariants(db)
    ensures faults.insertKey ==> resp == Rejected(500, "Failed to create license key") && Untouched(db)
    ensures !faults.insertKey ==> resp == Done(o.orderNumber, LicenseKeys.KeyFromDraws(draws)) && MarkedPaid(db, o, draws, now, faults)
  {
    var key := IssueKey(db, o, faults.variant, draws, now, faults.insertKey);
    if key.None? {
      return Rejected(500, "Failed to create license key");
    }
    var patch := Orders.Patch(Some(key.value.id), Some("card"), None);
    var _ := Complete(db, o.id, Paid, patch, now, faults.update);
    resp := Done(o.orderNumber, key.value.key);
  }

  /** The success page calling again for the same intent after a completion
      whose order update went through gets "Order already completed" and
      changes nothing: no second key. */
  method Retry(db: Db, pi: string, draws: seq<LicenseKeys.Draw>, now: Time, faults: Faults)
    returns (first: Response, second: Response)
    requires db.Valid() && |draws| == LicenseKeys.DrawCount
    requires pi != "" && !faults.lookup && !faults.update
    modifies db
    ensures OrderInvariants(db)
    ensures first.Done? ==> second.AlreadyCompleted? && second.order.status == Paid
    ensures |db.keys| <= |old(db.keys)| + 1
  {
    first := Post(db, Request(Some(pi)), draws, now, faults);
    ghost var keys1 := db.keys;
    if first.Done? {
      var o := Orders.GetOrderByPaymentIntent(old(db.orders), pi, false).value;
      IntentLookupAfterSettle(old(db.orders), pi, o, Paid, Orders.Patch(Some(old(db.nextId)), Some("card"), None), now);
    }
    second := Post(db, Request(Some(pi)), draws, now, faults);
  }

  /** The webhook and the success page racing for one payment: when the
      webhook's order update goes through first, the page's call finds the
      order settled and issues no second key. */
  method WebhookThenPage(db: Db, intent: StripeWebhook.PaymentIntent, draws: seq<LicenseKeys.Draw>, now: Time, faults: Faults)
    returns (reply: Response)
    requires db.Valid() && |draws| == LicenseKeys.DrawCount
    requires intent.id != "" && !faults.lookup && !faults.update
    modifies db
    ensures OrderInvariants(db)
    ensures Orders.GetOrderByPaymentIntent(old(db.orders), intent.id, false).Some? ==> reply.AlreadyCompleted?
    ensures |db.keys| <= |old(db.keys)| + 1
  {
    StripeWebhook.HandleIntentSucceeded(db, intent, draws, now, faults);
    var o0 := Orders.GetOrderByPaymentIntent(old(db.orders), intent.id, false);
    if o0.Some? && !o0.value.status.Settled() {
      var o := o0.value;
      var meta := if faults.insertKey then StripeWebhook.IntentFailureMeta(o.metadata, intent)
                  else StripeWebhook.IntentSuccessMeta(o.metadata, intent);
      var keyId := if faults.insertKey then None else Some(old(db.nextId));
      IntentLookupAfterSettle(old(db.orders), intent.id, o, Completed,
                              Orders.Patch(keyId, Some(StripeWebhook.MethodLabel(intent.paymentMethodTypes)), Some(meta)), now);
    }
    reply := Post(db, Request(Some(intent.id)), draws, now, faults);
  }
}
