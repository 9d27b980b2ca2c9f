/** app/actions/admin.ts: the admin dashboard's order and key actions, its
    statistics, and the single and bulk reprocessing of stuck orders. */
module AdminActions {
  import opened Wrappers
  import opened Store
  import Rows
  import Text
  import Orders
  import LicenseKeys
  import opened Fulfilment

  /** `{ success: true }` or `{ success: false, error }`. */
  datatype Outcome = Done | Refused(error: string)

  // ----- updateOrderStatus -------------------------------------------------

  /** The row write of the admin status change: the status column only. */
  function StatusOnly(status: OrderStatus): Order -> Order {
    (o: Order) => o.(status := status)
  }

  /** The admin status change keeps everything but the status, so an order
      holding a key can be moved back to "pending" and keep its key: the
      status alone does not say whether a key was issued. */
  lemma StatusOnlyKeepsKey(o: Order, status: OrderStatus)
    ensures StatusOnly(status)(o).licenseKeyId == o.licenseKeyId
    ensures StatusOnly(status)(o).paidAt == o.paidAt
    ensures StatusOnly(status)(o).(status := o.status) == o
    ensures o.status.Settled() && !status.Settled() ==> !StatusOnly(status)(o).status.Settled()
  {
  }

  /** `updateOrderStatus` (admin): sets the status whatever the current one
      is; an unknown id changes nothing and still succeeds. The declared
      parameter type excludes "completed". */
  method UpdateOrderStatus(db: Db, orderId: Id, status: OrderStatus, storeError: Option<string>)
    returns (r: Outcome)
    requires db.Valid() && status != Completed
    modifies db
    ensures OrderInvariants(db)
    ensures storeError.Some? ==> r == Refused(storeError.value) && Untouched(db)
    ensures storeError.None? ==>
      && r == Done
      && db.orders == Rows.UpdateWhere(old(db.orders), OrderIs(orderId), StatusOnly(status))
      && db.keys == old(db.keys) && db.coupons == old(db.coupons) && db.nextId == old(db.nextId)
  {
    if storeError.Some? {
      return Refused(storeError.value);
    }
    ghost var orders0 := db.orders;
    Rows.UpdateKeyed(db.orders, OrderId, db.nextId, OrderIs(orderId), StatusOnly(status));
    db.orders := Rows.UpdateWhere(db.orders, OrderIs(orderId), StatusOnly(status));
    if KeyRefsFresh(orders0, db.nextId) {
      Store.KeyRefsKept(orders0, db.orders, db.nextId, db.nextId);
    }
    r := Done;
  }

  // ----- addLicenseKeys ----------------------------------------------------

  /** `addLicenseKeys` (admin): trims every input, drops the blank ones and
      inserts the rest as "unused" keys of the variant; the count is the
      number inserted, 0 on a store error. */
  method AddLicenseKeys(db: Db, variantId: Id, texts: seq<string>, storeError: Option<string>)
    returns (r: Outcome, count: nat)
    requires db.Valid()
    modifies db
    ensures OrderInvariants(db)
    ensures storeError.Some? ==> r == Refused(storeError.value) && count == 0 && Untouched(db)
    ensures storeError.None? ==>
      var cleaned := Text.TrimmedNonEmpty(texts);
      && r == Done && count == |cleaned|
      && db.keys == old(db.keys) + LicenseKeys.UnusedRows(variantId, cleaned, old(db.nextId))
      && db.nextId == old(db.nextId) + count
      && db.orders == old(db.orders) && db.coupons == old(db.coupons)
  {
    if storeError.Some? {
      return Refused(storeError.value), 0;
    }
    var cleaned := Text.TrimmedNonEmpty(texts);
    count := LicenseKeys.AddLicenseKeys(db, variantId, cleaned, false);
    if KeyRefsFresh(old(db.orders), old(db.nextId)) {
      Store.KeyRefsKept(old(db.orders), db.orders, old(db.nextId), db.nextId);
    }
    r := Done;
  }

  /** No key the admin action inserts is blank, and each is an input
      trimmed. */
  lemma AddedKeysNonBlank(variantId: Id, texts: seq<string>, firstId: Id, i: nat)
    requires i < |Text.TrimmedNonEmpty(texts)|
    ensures var rows := LicenseKeys.UnusedRows(variantId, Text.TrimmedNonEmpty(texts), firstId);
      && rows[i].key != ""
      && rows[i].status == Unused && rows[i].variantId == variantId
      && exists j :: 0 <= j < |texts| && rows[i].key == Text.Trim(texts[j])
  {
    var cleaned := Text.TrimmedNonEmpty(texts);
    Text.TrimmedFrom(texts, i);
    var j :| 0 <= j < |texts| && cleaned[i] == Text.Trim(texts[j]);
    Text.TrimIdempotent(texts[j]);
  }

  // ----- getAdminStats -----------------------------------------------------

  datatype StatusCounts = StatusCounts(undetected: nat, updating: nat, testing: nat, down: nat)

  datatype Stats = Stats(
    totalRevenue: int, totalOrders: nat, completedOrders: nat, pendingOrders: nat,
    failedOrders: nat, totalProducts: nat, statusCounts: StatusCounts)

  function IsSettled(): Order -> bool { (o: Order) => o.status.Settled() }
  function IsPending(): Order -> bool { (o: Order) => o.status == Pending }
  function IsFailedOrRefunded(): Order -> bool { (o: Order) => o.status == Failed || o.status == Refunded }
  function HasProductStatus(s: ProductStatus): Product -> bool { (p: Product) => p.status == s }

  /** The sum of `amount_cents` over paid and completed orders. */
  function Revenue(orders: seq<Order>): int {
    if orders == [] then 0
    else (if orders[0].status.Settled() then orders[0].amountCents else 0) + Revenue(orders[1..])
  }

  /** Revenue over two batches of orders is the sum of their revenues: the
      total does not depend on how the orders are split (by date, say). */
  lemma {:induction false} RevenueAppend(a: seq<Order>, b: seq<Order>)
    ensures Revenue(a + b) == Revenue(a) + Revenue(b)
  {
    if a != [] {
      assert (a + b)[1..] == a[1..] + b;
      RevenueAppend(a[1..], b);
    } else {
      assert a + b == b;
    }
  }

  /** Only paid and completed orders bring revenue, and none of them
      subtracts from it when amounts are not negative. */
  lemma {:induction false} RevenueOfSettled(orders: seq<Order>)
    requires forall i :: 0 <= i < |orders| ==> orders[i].amountCents >= 0
    ensures Revenue(orders) >= 0
    ensures Revenue(orders) == Revenue(Rows.Filter(orders, IsSettled()))
  {
    if orders != [] {
      RevenueOfSettled(orders[1..]);
      var p := IsSettled();
      if p(orders[0]) {
        assert Rows.Filter(orders, p) == [orders[0]] + Rows.Filter(orders[1..], p);
        assert ([orders[0]] + Rows.Filter(orders[1..], p))[1..] == Rows.Filter(orders[1..], p);
      }
    }
  }

  /** `reduce((sum, o) => sum + o.amount_cents, 0)`: the sum of the amounts
      of a list of orders. */
  function SumAmounts(orders: seq<Order>): int {
    if orders == [] then 0 else orders[0].amountCents + SumAmounts(orders[1..])
  }

  /** The revenue is the sum of the amounts of the paid and completed
      orders, as the filter and the reduce compute it. */
  lemma {:induction false} RevenueIsSettledSum(orders: seq<Order>)
    ensures Revenue(orders) == SumAmounts(Rows.Filter(orders, IsSettled()))
  {
    if orders != [] {
      RevenueIsSettledSum(orders[1..]);
      var p := IsSettled();
      var rest := Rows.Filter(orders[1..], p);
      if p(orders[0]) {
        assert Rows.Filter(orders, p) == [orders[0]] + rest;
        assert ([orders[0]] + rest)[1..] == rest;
      } else {
        assert Rows.Filter(orders, p) == rest;
      }
    }
  }

  /** `getAdminStats` over the rows its two queries returned (`data || []`:
      a failed query counts as no rows). */
  function GetAdminStats(orders: seq<Order>, products: seq<Product>, ordersFault: bool, productsFault: bool)
    : (s: Stats)
    ensures ordersFault ==> s.totalOrders == 0 && s.totalRevenue == 0
    ensures productsFault ==> s.totalProducts == 0
    ensures !ordersFault ==> s.totalOrders == |orders|
    ensures s.completedOrders + s.pendingOrders + s.failedOrders == s.totalOrders
    ensures !productsFault ==> s.totalProducts == |products|
    ensures s.statusCounts.undetected + s.statusCounts.updating + s.statusCounts.testing + s.statusCounts.down
         == s.totalProducts
    ensures !ordersFault ==>
      && s.totalRevenue == SumAmounts(Rows.Filter(orders, IsSettled()))
      && s.completedOrders == |Rows.Filter(orders, IsSettled())|
      && s.pendingOrders == |Rows.Filter(orders, IsPending())|
      && s.failedOrders == |Rows.Filter(orders, IsFailedOrRefunded())|
    ensures ordersFault ==> s.completedOrders == 0 && s.pendingOrders == 0 && s.failedOrders == 0
    ensures !productsFault ==>
      && s.statusCounts.undetected == |Rows.Filter(products, HasProductStatus(Undetected))|
      && s.statusCounts.updating == |Rows.Filter(products, HasProductStatus(Updating))|
      && s.statusCounts.testing == |Rows.Filter(products, HasProductStatus(Testing))|
      && s.statusCounts.down == |Rows.Filter(products, HasProductStatus(Down))|
  {
    var os := if ordersFault then [] else orders;
    var ps := if productsFault then [] else products;
    OrderCountsAddUp(os);
    ProductCountsAddUp(ps);
    RevenueIsSettledSum(os);
    Stats(
      Revenue(os), |os|,
      Rows.Count(os, IsSettled()), Rows.Count(os, IsPending()), Rows.Count(os, IsFailedOrRefunded()),
      |ps|,
      StatusCounts(Rows.Count(ps, HasProductStatus(Undetected)), Rows.Count(ps, HasProductStatus(Updating)),
                   Rows.Count(ps, HasProductStatus(Testing)), Rows.Count(ps, HasProductStatus(Down))))
  }

  function IsSettledOrPending(): Order -> bool { (o: Order) => o.status.Settled() || o.status == Pending }
  function AnyOrder(): Order -> bool { (o: Order) => true }

  /** Every order falls in exactly one of the completed, pending and failed
      counts: the order status has no other value. */
  lemma OrderCountsAddUp(orders: seq<Order>)
    ensures Rows.Count(orders, IsSettled()) + Rows.Count(orders, IsPending()) + Rows.Count(orders, IsFailedOrRefunded())
         == |orders|
  {
    Rows.CountDisjoint(orders, IsSettled(), IsPending(), IsSettledOrPending());
    Rows.CountDisjoint(orders, IsSettledOrPending(), IsFailedOrRefunded(), AnyOrder());
    assert Rows.Filter(orders, AnyOrder()) == orders;
  }

  function IsUndetectedOrUpdating(): Product -> bool {
    (p: Product) => p.status == Undetected || p.status == Updating
  }
  function IsNotDown(): Product -> bool { (p: Product) => p.status != Down }
  function AnyProduct(): Product -> bool { (p: Product) => true }

  /** Every product falls in exactly one of the four status counts. */
  lemma ProductCountsAddUp(ps: seq<Product>)
    ensures Rows.Count(ps, HasProductStatus(Undetected)) + Rows.Count(ps, HasProductStatus(Updating))
          + Rows.Count(ps, HasProductStatus(Testing)) + Rows.Count(ps, HasProductStatus(Down)) == |ps|
  {
    Rows.CountDisjoint(ps, HasProductStatus(Undetected), HasProductStatus(Updating), IsUndetectedOrUpdating());
    Rows.CountDisjoint(ps, IsUndetectedOrUpdating(), HasProductStatus(Testing), IsNotDown());
    Rows.CountDisjoint(ps, IsNotDown(), HasProductStatus(Down), AnyProduct());
    assert Rows.Filter(ps, AnyProduct()) == ps;
  }

  // ----- processOrderManually ----------------------------------------------

  datatype Processing = Processed(licenseKey: string) | NotProcessed(error: string)

  /** Why `processOrderManually` turns a found order away before issuing a
      key, if it does: an order already paid or completed; or, when it has
      a payment intent, a gateway answer other than "succeeded" or a failed
      retrieval (`stripe`). Without an intent nothing is verified. */
  function Refusal(o: Order, stripe: Result<string>): (e: Option<string>)
    ensures e.None? <==> !o.status.Settled() && (!Present(o.paymentIntentId) || stripe == Success("succeeded"))
  {
    if o.status.Settled() then Some("Order already completed")
    else if !Present(o.paymentIntentId) then None
    else match stripe
      case Failure(_) => Some("Could not verify payment with Stripe")
      case Success(status) =>
        if status != "succeeded" then Some("Payment not successful. Status: " + status) else None
  }

  /** The order the joined lookup by id finds, `None` on a store error. */
  function LookupById(orders: seq<Order>, orderId: Id, fault: bool): Option<Order> {
    if fault then None else FindOrder(orders, orderId)
  }

  /** The store after a reprocess that issued a key: the key appended, and
      the order "completed" with it and `paid_at`, unless that write
      failed; payment method, metadata and coupons untouched. */
  twostate predicate Reprocessed(db: Db, o: Order, draws: seq<LicenseKeys.Draw>, now: Time, faults: Faults)
    reads db
  {
    && |draws| == LicenseKeys.DrawCount
    && db.keys == old(db.keys) + [IssuedKey(old(db.nextId), o.variantId, o.id,
                                            DurationOf(old(db.variants), o.variantId, false), draws, now)]
    && db.nextId == old(db.nextId) + 1
    && db.orders == Completion(old(db.orders), o.id, Completed,
                               Orders.Patch(Some(old(db.nextId)), None, None), now, faults.update)
    && db.coupons == old(db.coupons)
  }

  method ProcessOrderManually(
    db: Db, orderId: Id, stripe: Result<string>, draws: seq<LicenseKeys.Draw>, now: Time, faults: Faults)
    returns (r: Processing)
    requires db.Valid() && |draws| == LicenseKeys.DrawCount
    modifies db
    ensures OrderInvariants(db)
    ensures db.coupons == old(db.coupons)
    ensures db.orders == old(db.orders)
         || db.orders == Completion(old(db.orders), orderId, Completed,
                                    Orders.Patch(Some(old(db.nextId)), None, None), now, faults.update)
    ensures match LookupById(old(db.orders), orderId, faults.lookup)
      case None => r == NotProcessed("Order not found") && Untouched(db)
      case Some(o) =>
        if Refusal(o, stripe).Some? then r == NotProcessed(Refusal(o, stripe).value) && Untouched(db)
        else if faults.insertKey then r == NotProcessed("Failed to generate license key") && Untouched(db)
        else
          && Reprocessed(db, o, draws, now, faults)
          && r == if faults.update then NotProcessed("Failed to update order status")
                  else Processed(LicenseKeys.KeyFromDraws(draws))
  {
    var order := LookupById(db.orders, orderId, faults.lookup);
    if order.None? {
      return NotProcessed("Order not found");
    }
    var o := order.value;
    if o.status == Completed || o.status == Paid {
      return NotProcessed("Order already completed");
    }
    if Present(o.paymentIntentId) {
      if stripe.Failure? {
        return NotProcessed("Could not verify payment with Stripe");
      }
      if stripe.value != "succeeded" {
        return NotProcessed("Payment not successful. Status: " + stripe.value);
      }
    }
    r := IssueAndComplete(db, o, draws, now, faults);
  }

  /** The steps after the guards: issue a key for `o` and complete it. */
  method IssueAndComplete(db: Db, o: Order, draws: seq<LicenseKeys.Draw>, now: Time, faults: Faults)
    returns (r: Processing)
    requires db.Valid() && |draws| == LicenseKeys.DrawCount && o in db.orders
    modifies db
    ensures OrderInvariants(db)
    ensures db.coupons == old(db.coupons)
    ensures faults.insertKey ==> r == NotProcessed("Failed to generate license key") && Untouched(db)
    ensures !faults.insertKey ==>
      && Reprocessed(db, o, draws, now, faults)
      && r == if faults.update then NotProcessed("Failed to update order status")
              else Processed(LicenseKeys.KeyFromDraws(draws))
  {
    var key := IssueKey(db, o, false, draws, now, faults.insertKey);
    if key.None? {
      return NotProcessed("Failed to generate license key");
    }
    ghost var orders0, next0 := db.orders, db.nextId - 1;
    assert Rows.Keyed(db.orders, OrderId, db.nextId - 1);
    var updated := Complete(db, o.id, Completed, Orders.Patch(Some(key.value.id), None, None), now, faults.update);
    assert KeyRefsFresh(orders0, next0) ==> KeyRefsFresh(db.orders, db.nextId);
    if updated.None? {
      return NotProcessed("Failed to update order status");
    }
    r := Processed(key.value.key);
  }

  // ----- processAllPendingOrders -------------------------------------------

  /** What the gateway and the store answer while one pending order is
      processed: the status the loop retrieves, the status the reprocess
      retrieves again, the key's random draws and the store errors. */
  datatype Attempt = Attempt(listing: Result<string>, recheck: Result<string>,
                             draws: KeyDraws, faults: Faults)

  /** The draws of one key. */
  type KeyDraws = d: seq<LicenseKeys.Draw> | |d| == LicenseKeys.DrawCount
    witness seq(LicenseKeys.DrawCount, _ => 0)

  datatype Batch = Batch(success: bool, error: Option<string>, processed: nat, failed: nat, errors: seq<string>)

  function NoIntentError(o: Order): string {
    "Order " + o.orderNumber + ": No payment intent ID"
  }

  /** Every row that changed was "pending" and is now "completed". */
  predicate PendingCompleted(before: seq<Order>, after: seq<Order>) {
    SameIds(before, after)
    && forall j :: 0 <= j < |after| && after[j] != before[j] ==>
         before[j].status == Pending && after[j].status == Completed
  }

  /** Completing a row that was pending at the start keeps every change a
      completion of a pending order. */
  lemma PendingStep(orders0: seq<Order>, orders: seq<Order>, bound: nat, o: Order,
                    patch: Orders.Patch, now: Time, fault: bool)
    requires Rows.Keyed(orders0, OrderId, bound) && PendingCompleted(orders0, orders)
    requires o in orders0 && o.status == Pending
    ensures PendingCompleted(orders0, Completion(orders, o.id, Completed, patch, now, fault))
  {
    var after := Completion(orders, o.id, Completed, patch, now, fault);
    forall j | 0 <= j < |after| && after[j] != orders0[j]
      ensures orders0[j].status == Pending && after[j].status == Completed
    {
      if after[j] != orders[j] {
        var i :| 0 <= i < |orders0| && orders0[i] == o;
        assert orders0[j].id == o.id;
        assert i == j;
      }
    }
  }

  /** Changes that only complete pending orders write key ids only into
      settled rows. */
  lemma PendingCompletedSettles(before: seq<Order>, after: seq<Order>)
    requires PendingCompleted(before, after)
    ensures KeyWritesSettleInPlace(before, after)
  {
  }

  /** A pending order in the batch, and what happened to it. */
  function Attempted(o: Order, a: Attempt, result: Processing): (r: Option<string>)
  {
    if !Present(o.paymentIntentId) then Some(NoIntentError(o))
    else match a.listing
      case Failure(message) => Some("Order " + o.orderNumber + ": " + message)
      case Success(status) =>
        if status != "succeeded" then Some("Order " + o.orderNumber + ": Payment status is " + status)
        else if result.NotProcessed? then Some("Order " + o.orderNumber + ": " + result.error)
        else None
  }

  /** What the batch keeps while it runs, against the order table and id
      counter `orders0`, `nextId0` at the fetch: ids stay a key, only pending
      orders change and only to "completed", and no key is shared. */
  predicate Progress(db: Db, orders0: seq<Order>, nextId0: nat)
    reads db
  {
    && db.Valid() && Rows.Keyed(orders0, OrderId, nextId0)
    && PendingCompleted(orders0, db.orders)
    && (KeyRefsFresh(orders0, nextId0) ==> KeyRefsFresh(db.orders, db.nextId))
  }

  /** What `processOrderManually` answers for an order whose row is still
      the pending row the batch fetched. */
  function Reprocess(o: Order, a: Attempt): Processing {
    if a.faults.lookup then NotProcessed("Order not found")
    else if Refusal(o, a.recheck).Some? then NotProcessed(Refusal(o, a.recheck).value)
    else if a.faults.insertKey then NotProcessed("Failed to generate license key")
    else if a.faults.update then NotProcessed("Failed to update order status")
    else Processed(LicenseKeys.KeyFromDraws(a.draws))
  }

  /** The error line the batch writes for the pending order `o`, `None`
      when the attempt completes it. */
  function ErrorLine(o: Order, a: Attempt): Option<string> {
    Attempted(o, a, Reprocess(o, a))
  }

  /** A pending order is completed exactly when it has an intent, both
      retrievals say "succeeded" and none of the three store calls fails. */
  lemma CompletedExactly(o: Order, a: Attempt)
    requires o.status == Pending
    ensures ErrorLine(o, a).None? <==>
      && Present(o.paymentIntentId) && a.listing == Success("succeeded") && a.recheck == Success("succeeded")
      && !a.faults.lookup && !a.faults.insertKey && !a.faults.update
  {
  }

  /** The error lines of a run over `pending`, in order. */
  function ErrorLines(pending: seq<Order>, attempts: seq<Attempt>): (r: seq<string>)
    requires |attempts| == |pending|
    ensures |r| <= |pending|
  {
    if pending == [] then []
    else
      var n := |pending| - 1;
      var e := ErrorLine(pending[n], attempts[n]);
      ErrorLines(pending[..n], attempts[..n]) + (if e.Some? then [e.value] else [])
  }

  /** How the batch leaves the fetched order `o` in `orders`: "completed"
      with a key when its attempt wrote no error line, as fetched otherwise. */
  predicate LeftAs(orders: seq<Order>, o: Order, a: Attempt) {
    if ErrorLine(o, a).None? then
      exists j :: 0 <= j < |orders| && orders[j].id == o.id && orders[j].status == Completed && orders[j].licenseKeyId.Some?
    else o in orders
  }

  /** The write that completes order `id` with the key `keyId`. */
  function CompleteWith(keyId: Id, now: Time): Order -> Order {
    Orders.ApplyStatus(Completed, Orders.Patch(Some(keyId), None, None), now)
  }

  /** One turn of the batch loop for the pending order `o`: the error line
      it adds, if any. */
  method ProcessOne(db: Db, o: Order, a: Attempt, now: Time, ghost orders0: seq<Order>, ghost nextId0: nat)
    returns (error: Option<string>)
    requires Progress(db, orders0, nextId0)
    requires o in orders0 && o.status == Pending && o in db.orders
    modifies db
    ensures Progress(db, orders0, nextId0)
    ensures db.coupons == old(db.coupons) && db.products == old(db.products) && db.variants == old(db.variants)
    ensures error == ErrorLine(o, a)
    ensures error.Some? ==> db.orders == old(db.orders)
    ensures error.None? ==> db.orders == Rows.UpdateWhere(old(db.orders), OrderIs(o.id), CompleteWith(old(db.nextId), now))
    ensures IssuesKey(o, a) ==>
      db.keys == old(db.keys) + [TurnKey(o, a, old(db.variants), old(db.nextId), now)] && db.nextId == old(db.nextId) + 1
    ensures !IssuesKey(o, a) ==> db.keys == old(db.keys) && db.nextId == old(db.nextId)
  {
    var result := NotProcessed("");
    if Present(o.paymentIntentId) && a.listing == Success("succeeded") {
      FindMember(db.orders, db.nextId, o);
      result := ProcessOrderManually(db, o.id, a.recheck, a.draws, now, a.faults);
      if db.orders != old(db.orders) {
        PendingStep(orders0, old(db.orders), nextId0, o, Orders.Patch(Some(old(db.nextId)), None, None), now, a.faults.update);
      }
    }
    error := Attempted(o, a, result);
  }

  /** Appending the error line of order `i` keeps every earlier line, and
      records the missing intent of order `i` when that is its error. */
  lemma ErrorsGrow(pending: seq<Order>, i: nat, errors: seq<string>, e: string)
    requires i < |pending|
    requires forall k :: 0 <= k < i && !Present(pending[k].paymentIntentId) ==> NoIntentError(pending[k]) in errors
    requires !Present(pending[i].paymentIntentId) ==> e == NoIntentError(pending[i])
    ensures forall k :: 0 <= k < i + 1 && !Present(pending[k].paymentIntentId) ==> NoIntentError(pending[k]) in errors + [e]
  {
  }

  /** After `i` turns: the first `i` fetched orders are left as their
      attempts say, and the others are still as fetched. */
  predicate Turned(orders: seq<Order>, pending: seq<Order>, attempts: seq<Attempt>, i: nat)
    requires |attempts| == |pending| && i <= |pending|
  {
    && (forall k :: 0 <= k < i ==> LeftAs(orders, pending[k], attempts[k]))
    && (forall k :: i <= k < |pending| ==> pending[k] in orders)
  }

  /** Completing the fetched order `i` is a turn. */
  lemma LeftAsStep(orders: seq<Order>, pending: seq<Order>, attempts: seq<Attempt>, i: nat, f: Order -> Order)
    requires |attempts| == |pending| && i < |pending| && Rows.IdsDistinct(pending, OrderId)
    requires Turned(orders, pending, attempts, i)
    requires ErrorLine(pending[i], attempts[i]).None?
    requires f(pending[i]).id == pending[i].id && f(pending[i]).status == Completed && f(pending[i]).licenseKeyId.Some?
    ensures Turned(Rows.UpdateWhere(orders, OrderIs(pending[i].id), f), pending, attempts, i + 1)
  {
    var after := Rows.UpdateWhere(orders, OrderIs(pending[i].id), f);
    forall k | 0 <= k <= i ensures LeftAs(after, pending[k], attempts[k]) {
      if k == i {
        var j :| 0 <= j < |orders| && orders[j] == pending[i];
        assert after[j] == f(pending[i]);
        assert after[j].id == pending[k].id && after[j].status == Completed && after[j].licenseKeyId.Some?;
      } else if ErrorLine(pending[k], attempts[k]).None? {
        var j :| 0 <= j < |orders| && orders[j].id == pending[k].id && orders[j].status == Completed
                 && orders[j].licenseKeyId.Some?;
        assert pending[k].id != pending[i].id;
        assert after[j] == orders[j];
        assert after[j].id == pending[k].id && after[j].status == Completed && after[j].licenseKeyId.Some?;
      } else {
        var j :| 0 <= j < |orders| && orders[j] == pending[k];
        assert pending[k].id != pending[i].id;
        assert after[j] == orders[j];
      }
    }
    forall k | i < k < |pending| ensures pending[k] in after {
      var j :| 0 <= j < |orders| && orders[j] == pending[k];
      assert pending[k].id != pending[i].id;
      assert after[j] == orders[j];
    }
  }

  /** A failed attempt, which changes no order, is a turn. */
  lemma FailedTurn(orders: seq<Order>, pending: seq<Order>, attempts: seq<Attempt>, i: nat)
    requires |attempts| == |pending| && i < |pending|
    requires Turned(orders, pending, attempts, i)
    requires ErrorLine(pending[i], attempts[i]).Some?
    ensures Turned(orders, pending, attempts, i + 1)
  {
  }

  /** The error lines of one more turn. */
  lemma ErrorLinesStep(pending: seq<Order>, attempts: seq<Attempt>, i: nat)
    requires |attempts| == |pending| && i < |pending|
    ensures var e := ErrorLine(pending[i], attempts[i]);
      ErrorLines(pending[..i + 1], attempts[..i + 1])
        == ErrorLines(pending[..i], attempts[..i]) + (if e.Some? then [e.value] else [])
  {
    assert pending[..i + 1][..i] == pending[..i] && attempts[..i + 1][..i] == attempts[..i];
  }

  /** Whether the turn of the pending order `o` issues a key: it has an
      intent, both retrievals say "succeeded", and neither the lookup nor
      the key insert fails. */
  predicate IssuesKey(o: Order, a: Attempt) {
    && Present(o.paymentIntentId) && a.listing == Success("succeeded") && a.recheck == Success("succeeded")
    && !a.faults.lookup && !a.faults.insertKey
  }

  /** A turn completes its order exactly when it issues a key and the order
      update does not fail; a key issued before a failed update stays
      behind without an order. */
  lemma KeyedTurns(o: Order, a: Attempt)
    requires o.status == Pending
    ensures ErrorLine(o, a).None? <==> IssuesKey(o, a) && !a.faults.update
    ensures IssuesKey(o, a) && a.faults.update ==> ErrorLine(o, a) == Some("Order " + o.orderNumber + ": " + "Failed to update order status")
  {
    CompletedExactly(o, a);
  }

  /** The key the turn of `o` issues under the id `id`: the row
      `IssuedKey` describes, spelled out so that the draws' length comes
      from their type. */
  function TurnKey(o: Order, a: Attempt, variants: seq<Variant>, id: Id, now: Time): LicenseKey {
    LicenseKey(id, o.variantId, LicenseKeys.KeyFromDraws(a.draws), Used, Some(o.id), Some(now),
               LicenseKeys.ExpiresAt(DurationOf(variants, o.variantId, false), now))
  }

  /** The keys the first `n` turns of a run over `pending` append, in
      order, under consecutive ids from `nextId`. */
  function IssuedKeys(pending: seq<Order>, attempts: seq<Attempt>, variants: seq<Variant>, nextId: Id, now: Time, n: nat)
    : (r: seq<LicenseKey>)
    requires |attempts| == |pending| && n <= |pending|
    ensures |r| <= n
  {
    if n == 0 then []
    else
      var earlier := IssuedKeys(pending, attempts, variants, nextId, now, n - 1);
      earlier + (if IssuesKey(pending[n - 1], attempts[n - 1]) then [TurnKey(pending[n - 1], attempts[n - 1], variants, nextId + |earlier|, now)] else [])
  }

  /** The keys of one more turn. */
  lemma IssuedKeysStep(pending: seq<Order>, attempts: seq<Attempt>, variants: seq<Variant>, nextId0: Id, now: Time, i: nat)
    requires |attempts| == |pending| && i < |pending|
    ensures var earlier := IssuedKeys(pending, attempts, variants, nextId0, now, i);
      IssuedKeys(pending, attempts, variants, nextId0, now, i + 1)
        == earlier + (if IssuesKey(pending[i], attempts[i]) then [TurnKey(pending[i], attempts[i], variants, nextId0 + |earlier|, now)] else [])
  {
  }

  /** The key table after one more turn, from the table before it and what
      the turn issued. */
  lemma KeysAfterTurn(keys0: seq<LicenseKey>, keys1: seq<LicenseKey>, keys2: seq<LicenseKey>, id1: nat, id2: nat,
                      pending: seq<Order>, attempts: seq<Attempt>, variants: seq<Variant>, nextId0: Id, now: Time, i: nat)
    requires |attempts| == |pending| && i < |pending|
    requires var issued := IssuedKeys(pending, attempts, variants, nextId0, now, i);
      keys1 == keys0 + issued && id1 == nextId0 + |issued|
    requires IssuesKey(pending[i], attempts[i]) ==>
      keys2 == keys1 + [TurnKey(pending[i], attempts[i], variants, id1, now)] && id2 == id1 + 1
    requires !IssuesKey(pending[i], attempts[i]) ==> keys2 == keys1 && id2 == id1
    ensures var issued := IssuedKeys(pending, attempts, variants, nextId0, now, i + 1);
      keys2 == keys0 + issued && id2 == nextId0 + |issued|
  {
    IssuedKeysStep(pending, attempts, variants, nextId0, now, i);
    var earlier := IssuedKeys(pending, attempts, variants, nextId0, now, i);
    var added := if IssuesKey(pending[i], attempts[i]) then [TurnKey(pending[i], attempts[i], variants, id1, now)] else [];
    AppendRegroup(keys0, earlier, added);
  }

  /** Appending after an append is appending the joined tail. */
  lemma AppendRegroup<T>(a: seq<T>, b: seq<T>, c: seq<T>)
    ensures (a + b) + c == a + (b + c)
  {
  }

  /** `processAllPendingOrders`: reprocesses, one after another, the orders
      that were pending when the batch started. Each is counted once, as
      processed or failed with one error line, and one failure does not stop
      the batch; an order ends "completed" exactly when its attempt wrote no
      error line, and every other order stays as it was. */
  method ProcessAllPendingOrders(db: Db, fetchFault: bool, attempts: seq<Attempt>, now: Time)
    returns (b: Batch)
    requires db.Valid()
    requires fetchFault || |attempts| == |Rows.Filter(db.orders, IsPending())|
    modifies db
    ensures OrderInvariants(db)
    ensures db.coupons == old(db.coupons)
    ensures db.products == old(db.products) && db.variants == old(db.variants)
    ensures fetchFault ==> b == Batch(false, Some("Failed to fetch pending orders"), 0, 0, []) && Untouched(db)
    ensures !fetchFault ==>
      var pending := Rows.Filter(old(db.orders), IsPending());
      && b.success && b.error.None?
      && b.errors == ErrorLines(pending, attempts)
      && b.processed + b.failed == |pending|
      && |b.errors| == b.failed
      && (forall k :: 0 <= k < |pending| ==> LeftAs(db.orders, pending[k], attempts[k]))
      && (forall k :: 0 <= k < |pending| && !Present(pending[k].paymentIntentId) ==> NoIntentError(pending[k]) in b.errors)
    ensures !fetchFault ==>
      var pending := Rows.Filter(old(db.orders), IsPending());
      var issued := IssuedKeys(pending, attempts, old(db.variants), old(db.nextId), now, |pending|);
      db.keys == old(db.keys) + issued && db.nextId == old(db.nextId) + |issued|
    ensures PendingCompleted(old(db.orders), db.orders)
  {
    if fetchFault {
      return Batch(false, Some("Failed to fetch pending orders"), 0, 0, []);
    }
    var pending := Rows.Filter(db.orders, IsPending());
    Rows.FilterDistinct(db.orders, OrderId, IsPending());
    var processed, failed, errors := RunBatch(db, pending, attempts, now, db.orders, db.nextId);
    assert Progress(db, old(db.orders), old(db.nextId));
    PendingCompletedSettles(old(db.orders), db.orders);
    b := Batch(true, None, processed, failed, errors);
  }

  /** The loop of `processAllPendingOrders` over the orders fetched as
      pending (`orders0` is the order table when they were fetched). */
  method RunBatch(db: Db, pending: seq<Order>, attempts: seq<Attempt>, now: Time,
                  ghost orders0: seq<Order>, ghost nextId0: nat)
    returns (processed: nat, failed: nat, errors: seq<string>)
    requires db.Valid() && orders0 == db.orders && nextId0 == db.nextId
    requires forall k :: 0 <= k < |pending| ==> pending[k] in orders0 && pending[k].status == Pending
    requires Rows.IdsDistinct(pending, OrderId)
    requires |attempts| == |pending|
    modifies db
    ensures Progress(db, orders0, nextId0)
    ensures db.coupons == old(db.coupons) && db.products == old(db.products) && db.variants == old(db.variants)
    ensures processed + failed == |pending| && |errors| == failed
    ensures errors == ErrorLines(pending, attempts)
    ensures forall k :: 0 <= k < |pending| ==> LeftAs(db.orders, pending[k], attempts[k])
    ensures forall k :: 0 <= k < |pending| && !Present(pending[k].paymentIntentId) ==> NoIntentError(pending[k]) in errors
    ensures var issued := IssuedKeys(pending, attempts, old(db.variants), nextId0, now, |pending|);
      db.keys == old(db.keys) + issued && db.nextId == nextId0 + |issued|
  {
    processed, failed, errors := 0, 0, [];
    for i := 0 to |pending|
      invariant db.coupons == old(db.coupons) && db.products == old(db.products) && db.variants == old(db.variants)
      invariant Progress(db, orders0, nextId0)
      invariant processed + failed == i && |errors| == failed
      invariant errors == ErrorLines(pending[..i], attempts[..i])
      invariant Turned(db.orders, pending, attempts, i)
      invariant forall k :: 0 <= k < i && !Present(pending[k].paymentIntentId) ==> NoIntentError(pending[k]) in errors
      invariant var issued := IssuedKeys(pending, attempts, old(db.variants), nextId0, now, i);
        db.keys == old(db.keys) + issued && db.nextId == nextId0 + |issued|
    {
      ghost var before := db.orders;
      ghost var key := db.nextId;
      ghost var keys := db.keys;
      var error := ProcessOne(db, pending[i], attempts[i], now, orders0, nextId0);
      ErrorLinesStep(pending, attempts, i);
      KeysAfterTurn(old(db.keys), keys, db.keys, key, db.nextId, pending, attempts, old(db.variants), nextId0, now, i);
      if error.None? {
        LeftAsStep(before, pending, attempts, i, CompleteWith(key, now));
        processed := processed + 1;
      } else {
        FailedTurn(before, pending, attempts, i);
        failed := failed + 1;
        ErrorsGrow(pending, i, errors, error.value);
        errors := errors + [error.value];
      }
    }
    assert pending[..|pending|] == pending && attempts[..|attempts|] == attempts;
    assert Turned(db.orders, pending, attempts, |pending|);
  }
}
