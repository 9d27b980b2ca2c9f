/** app/api/webhooks/stripe/route.ts: the Stripe webhook. The signature
    check (`stripe.webhooks.constructEvent`) is the gateway's: its verdict is
    the `event` argument, `None` for a signature it rejects. */
module StripeWebhook {
  import opened Wrappers
  import opened Json
  import opened Store
  import Rows
  import Orders
  import LicenseKeys
  import Coupons
  import opened Fulfilment

  datatype PaymentIntent = PaymentIntent(id: string, paymentMethodTypes: seq<string>, couponId: Option<Id>)

  datatype Session = Session(
    id: string, paymentStatus: string, paymentMethodTypes: seq<string>,
    paymentIntent: Option<string>, couponId: Option<Id>)

  /** A refunded charge: its payment intent and the ids in `refunds.data`. */
  datatype Charge = Charge(paymentIntent: Option<string>, refundIds: seq<string>)

  datatype Event =
    | PaymentIntentSucceeded(intent: PaymentIntent)
    | CheckoutSessionCompleted(session: Session)
    | ChargeRefunded(charge: Charge)
    | Unhandled(eventType: string)

  /** The HTTP reply: an error status with its message, or 200
      `{received: true}`. */
  datatype Reply = Rejected(status: int, error: string) | Received {
    function Status(): int {
      if Rejected? then status else 200
    }
  }

  /** `payment_method_types?.[0] || "card"`. */
  function MethodLabel(types: seq<string>): (m: string)
    ensures m != ""
    ensures m == "card" || (|types| > 0 && m == types[0])
  {
    if |types| > 0 && types[0] != "" then types[0] else "card"
  }

  const KeyError: Json := JStr("Failed to generate")

  /** `{...metadata, stripe_payment_id}` after a key was issued. */
  function IntentSuccessMeta(m: Metadata, pi: PaymentIntent): (r: Metadata)
    ensures r.Keys == m.Keys + {"stripe_payment_id"}
    ensures r["stripe_payment_id"] == JStr(pi.id)
    ensures forall k :: k in m && k != "stripe_payment_id" ==> r[k] == m[k]
  {
    m["stripe_payment_id" := JStr(pi.id)]
  }

  /** `{...metadata, license_key_error, stripe_payment_id}` after the key
      insert failed. */
  function IntentFailureMeta(m: Metadata, pi: PaymentIntent): (r: Metadata)
    ensures r.Keys == m.Keys + {"license_key_error", "stripe_payment_id"}
    ensures r["license_key_error"] == KeyError && r["stripe_payment_id"] == JStr(pi.id)
    ensures forall k :: k in m && k != "license_key_error" && k != "stripe_payment_id" ==> r[k] == m[k]
  {
    m["license_key_error" := KeyError]["stripe_payment_id" := JStr(pi.id)]
  }

  /** `{...metadata, stripe_session_id, stripe_payment_intent}` after a key
      was issued; a session without an intent stores null. */
  function SessionSuccessMeta(m: Metadata, s: Session): (r: Metadata)
    ensures r.Keys == m.Keys + {"stripe_session_id", "stripe_payment_intent"}
    ensures r["stripe_session_id"] == JStr(s.id)
    ensures r["stripe_payment_intent"] == if s.paymentIntent.Some? then JStr(s.paymentIntent.value) else JNull
    ensures forall k :: k in m && k != "stripe_session_id" && k != "stripe_payment_intent" ==> r[k] == m[k]
  {
    m["stripe_session_id" := JStr(s.id)]
     ["stripe_payment_intent" := if s.paymentIntent.Some? then JStr(s.paymentIntent.value) else JNull]
  }

  /** `{...metadata, license_key_error, stripe_session_id}` after the key
      insert failed. */
  function SessionFailureMeta(m: Metadata, s: Session): (r: Metadata)
    ensures r.Keys == m.Keys + {"license_key_error", "stripe_session_id"}
    ensures r["license_key_error"] == KeyError && r["stripe_session_id"] == JStr(s.id)
    ensures forall k :: k in m && k != "license_key_error" && k != "stripe_session_id" ==> r[k] == m[k]
  {
    m["license_key_error" := KeyError]["stripe_session_id" := JStr(s.id)]
  }

  /** `{...metadata, refund_id: charge.refunds?.data[0]?.id, refunded_at}`:
      a missing refund id is `undefined` and drops the key. */
  function RefundMeta(m: Metadata, c: Charge, now: Time): (r: Metadata)
    ensures "refunded_at" in r && r["refunded_at"] == JDate(now)
    ensures "refund_id" in r <==> |c.refundIds| > 0
    ensures |c.refundIds| > 0 ==> r["refund_id"] == JStr(c.refundIds[0])
    ensures forall k :: k in m && k != "refund_id" && k != "refunded_at" ==> k in r && r[k] == m[k]
    ensures forall k :: k in r ==> k in m || k == "refund_id" || k == "refunded_at"
  {
    SetMeta(SetMeta(m, "refund_id", if |c.refundIds| > 0 then Some(JStr(c.refundIds[0])) else None),
            "refunded_at", Some(JDate(now)))
  }

  /** What the completion steps of a success event do to the store once the
      order `o` is found and not yet settled: insert a key and complete the
      order with it, then count the coupon; if the key insert fails, still
      complete the order, without a key and with `license_key_error`, and
      leave the coupon alone. */
  twostate predicate Fulfilled(
    db: Db, o: Order, paymentMethod: string, successMeta: Metadata, failureMeta: Metadata,
    couponId: Option<Id>, draws: seq<LicenseKeys.Draw>, now: Time, faults: Faults)
    reads db
  {
    && |draws| == LicenseKeys.DrawCount
    && if faults.insertKey then
         && db.keys == old(db.keys) && db.nextId == old(db.nextId) && db.coupons == old(db.coupons)
         && db.orders == Completion(old(db.orders), o.id, Completed,
                                    Orders.Patch(None, Some(paymentMethod), Some(failureMeta)), now, faults.update)
       else
         && db.keys == old(db.keys) + [IssuedKey(old(db.nextId), o.variantId, o.id,
                                                 DurationOf(old(db.variants), o.variantId, faults.variant), draws, now)]
         && db.nextId == old(db.nextId) + 1
         && db.orders == Completion(old(db.orders), o.id, Completed,
                                    Orders.Patch(Some(old(db.nextId)), Some(paymentMethod), Some(successMeta)),
                                    now, faults.update)
         && db.coupons == CouponsAfter(old(db.coupons), couponId, faults.coupon)
  }

  /** The steps shared by `payment_intent.succeeded` and
      `checkout.session.completed` after their guards. */
  method Fulfil(
    db: Db, o: Order, paymentMethod: string, successMeta: Metadata, failureMeta: Metadata,
    couponId: Option<Id>, draws: seq<LicenseKeys.Draw>, now: Time, faults: Faults)
    requires db.Valid() && |draws| == LicenseKeys.DrawCount && o in db.orders
    modifies db
    ensures OrderInvariants(db)
    ensures Fulfilled(db, o, paymentMethod, successMeta, failureMeta, couponId, draws, now, faults)
  {
    var key := IssueKey(db, o, faults.variant, draws, now, faults.insertKey);
    if key.None? {
      var patch := Orders.Patch(None, Some(paymentMethod), Some(failureMeta));
      var _ := Complete(db, o.id, Completed, patch, now, faults.update);
      return;
    }
    var patch := Orders.Patch(Some(key.value.id), Some(paymentMethod), Some(successMeta));
    var _ := Complete(db, o.id, Completed, patch, now, faults.update);
    if couponId.Some? {
      var _ := Coupons.IncrementCouponUsage(db, couponId.value, faults.coupon);
    }
  }

  /** `payment_intent.succeeded`: an unknown intent or an order already
      "paid" or "completed" changes nothing; otherwise the order is
      completed as `Fulfilled` says, with `stripe_payment_id` merged into
      its metadata. */
  twostate predicate IntentHandled(db: Db, pi: PaymentIntent, draws: seq<LicenseKeys.Draw>, now: Time, faults: Faults)
    reads db
  {
    var found := Orders.GetOrderByPaymentIntent(old(db.orders), pi.id, faults.lookup);
    if found.None? || found.value.status.Settled() then Untouched(db)
    else
      var o := found.value;
      Fulfilled(db, o, MethodLabel(pi.paymentMethodTypes), IntentSuccessMeta(o.metadata, pi),
                IntentFailureMeta(o.metadata, pi), pi.couponId, draws, now, faults)
  }

  /** `checkout.session.completed`: a session not yet paid, an unknown
      session or a settled order changes nothing; otherwise the order is
      completed with the session id (and its payment intent) merged into its
      metadata. */
  twostate predicate SessionHandled(db: Db, s: Session, draws: seq<LicenseKeys.Draw>, now: Time, faults: Faults)
    reads db
  {
    var found := Orders.GetOrderByCheckoutSession(old(db.orders), s.id, faults.lookup);
    if s.paymentStatus != "paid" || found.None? || found.value.status.Settled() then Untouched(db)
    else
      var o := found.value;
      Fulfilled(db, o, MethodLabel(s.paymentMethodTypes), SessionSuccessMeta(o.metadata, s),
                SessionFailureMeta(o.metadata, s), s.couponId, draws, now, faults)
  }

  /** `charge.refunded`: the order of the charge's intent becomes
      "refunded" whatever its status, keeps its key id and gets the refund
      merged into its metadata; nothing else changes. */
  twostate predicate RefundHandled(db: Db, c: Charge, now: Time, faults: Faults)
    reads db
  {
    if !Present(c.paymentIntent) then Untouched(db)
    else match Orders.GetOrderByPaymentIntent(old(db.orders), c.paymentIntent.value, faults.lookup)
      case None => Untouched(db)
      case Some(o) =>
        && db.orders == Completion(old(db.orders), o.id, Refunded,
                                   Orders.Patch(None, None, Some(RefundMeta(o.metadata, c, now))), now, faults.update)
        && db.keys == old(db.keys) && db.coupons == old(db.coupons) && db.nextId == old(db.nextId)
  }

  method HandleIntentSucceeded(db: Db, pi: PaymentIntent, draws: seq<LicenseKeys.Draw>, now: Time, faults: Faults)
    requires db.Valid() && |draws| == LicenseKeys.DrawCount
    modifies db
    ensures OrderInvariants(db)
    ensures IntentHandled(db, pi, draws, now, faults)
  {
    var order := Orders.GetOrderByPaymentIntent(db.orders, pi.id, faults.lookup);
    if order.None? {
      return;
    }
    var o := order.value;
    if o.status == Completed || o.status == Paid {
      return;
    }
    Fulfil(db, o, MethodLabel(pi.paymentMethodTypes), IntentSuccessMeta(o.metadata, pi),
           IntentFailureMeta(o.metadata, pi), pi.couponId, draws, now, faults);
  }

  method HandleSessionCompleted(db: Db, s: Session, draws: seq<LicenseKeys.Draw>, now: Time, faults: Faults)
    requires db.Valid() && |draws| == LicenseKeys.DrawCount
    modifies db
    ensures OrderInvariants(db)
    ensures SessionHandled(db, s, draws, now, faults)
  {
    if s.paymentStatus != "paid" {
      return;
    }
    var order := Orders.GetOrderByCheckoutSession(db.orders, s.id, faults.lookup);
    if order.None? {
      return;
    }
    var o := order.value;
    if o.status == Completed || o.status == Paid {
      return;
    }
    Fulfil(db, o, MethodLabel(s.paymentMethodTypes), SessionSuccessMeta(o.metadata, s),
           SessionFailureMeta(o.metadata, s), s.couponId, draws, now, faults);
  }

  method HandleChargeRefunded(db: Db, c: Charge, now: Time, faults: Faults)
    requires db.Valid()
    modifies db
    ensures OrderInvariants(db)
    ensures RefundHandled(db, c, now, faults)
  {
    if !Present(c.paymentIntent) {
      return;
    }
    var order := Orders.GetOrderByPaymentIntent(db.orders, c.paymentIntent.value, faults.lookup);
    if order.None? {
      return;
    }
    var o := order.value;
    var patch := Orders.Patch(None, None, Some(RefundMeta(o.metadata, c, now)));
    var _ := Complete(db, o.id, Refunded, patch, now, faults.update);
  }

  /** `POST`: the signature header, the configured secret and the gateway's
      verdict on the signature are checked in that order, and a rejected
      request touches nothing; a verified event always gets 200, whatever
      its handling did. */
  method Post(
    db: Db, signature: Option<string>, secret: Option<string>, event: Option<Event>,
    draws: seq<LicenseKeys.Draw>, now: Time, faults: Faults) returns (reply: Reply)
    requires db.Valid() && |draws| == LicenseKeys.DrawCount
    modifies db
    ensures OrderInvariants(db)
    ensures !Present(signature) ==> reply == Rejected(400, "Missing signature") && Untouched(db)
    ensures Present(signature) && !Present(secret) ==>
      reply == Rejected(500, "Webhook secret not configured") && Untouched(db)
    ensures Present(signature) && Present(secret) && event.None? ==>
      reply == Rejected(400, "Invalid signature") && Untouched(db)
    ensures Present(signature) && Present(secret) && event.Some? ==> reply == Received && reply.Status() == 200
    ensures Present(signature) && Present(secret) && event.Some? ==>
      match event.value
      case PaymentIntentSucceeded(pi) => IntentHandled(db, pi, draws, now, faults)
      case CheckoutSessionCompleted(s) => SessionHandled(db, s, draws, now, faults)
      case ChargeRefunded(c) => RefundHandled(db, c, now, faults)
      case Unhandled(_) => Untouched(db)
  {
    if !Present(signature) {
      return Rejected(400, "Missing signature");
    }
    if !Present(secret) {
      return Rejected(500, "Webhook secret not configured");
    }
    if event.None? {
      return Rejected(400, "Invalid signature");
    }
    reply := Received;
    match event.value
    case PaymentIntentSucceeded(pi) =>
      HandleIntentSucceeded(db, pi, draws, now, faults);
    case CheckoutSessionCompleted(s) =>
      HandleSessionCompleted(db, s, draws, now, faults);
    case ChargeRefunded(c) =>
      HandleChargeRefunded(db, c, now, faults);
    case Unhandled(_) =>
  }
  /** Stripe's retries: delivering the same `payment_intent.succeeded`
      twice, with the store answering the lookups and the order update,
      ends exactly where one delivery does. */
  method DeliverIntentTwice(db: Db, pi: PaymentIntent, draws: seq<LicenseKeys.Draw>, now: Time, faults: Faults)
    requires db.Valid() && |draws| == LicenseKeys.DrawCount
    requires !faults.lookup && !faults.update
    modifies db
    ensures OrderInvariants(db)
    ensures IntentHandled(db, pi, draws, now, faults)
  {
    HandleIntentSucceeded(db, pi, draws, now, faults);
    ghost var first := (db.orders, db.keys, db.coupons, db.nextId);
    var found := Orders.GetOrderByPaymentIntent(db.orders, pi.id, false);
    assert found.Some? ==> found.value.status.Settled() by {
      var o0 := Orders.GetOrderByPaymentIntent(old(db.orders), pi.id, false);
      if o0.Some? && !o0.value.status.Settled() {
        var o := o0.value;
        var meta := if faults.insertKey then IntentFailureMeta(o.metadata, pi) else IntentSuccessMeta(o.metadata, pi);
        var keyId := if faults.insertKey then None else Some(old(db.nextId));
        IntentLookupAfterSettle(old(db.orders), pi.id, o, Completed,
                                Orders.Patch(keyId, Some(MethodLabel(pi.paymentMethodTypes)), Some(meta)), now);
      }
    }
    HandleIntentSucceeded(db, pi, draws, now, faults);
    assert (db.orders, db.keys, db.coupons, db.nextId) == first;
  }
}
