/** The storefront's database tables (orders, license keys, coupons,
    products, variants) as one in-memory store, and the order-table facts
    every entry point relies on. */
module Store {
  import opened Wrappers
  import opened Json
  import Rows

  type Id = Uuid

  /** Milliseconds since the epoch, as `Date.now()` returns them. */
  type Time = int

  datatype OrderStatus = Pending | Paid | Completed | Failed | Refunded {
    /** "paid" or "completed": what every trigger treats as already done. */
    predicate Settled() {
      this == Paid || this == Completed
    }
  }

  datatype KeyStatus = Unused | Used | Expired | Revoked

  datatype DiscountType = Percentage | Fixed

  datatype ProductStatus = Undetected | Updating | Down | Testing

  /** The `metadata` jsonb column of an order. */
  type Metadata = map<string, Json>

  datatype Order = Order(
    id: Id,
    orderNumber: string,
    customerEmail: string,
    productId: Id,
    variantId: Id,
    licenseKeyId: Option<Id>,
    amountCents: int,
    status: OrderStatus,
    paymentIntentId: Option<string>,
    checkoutSessionId: Option<string>,
    paymentMethod: Option<string>,
    metadata: Metadata,
    paidAt: Option<Time>)

  datatype LicenseKey = LicenseKey(
    id: Id,
    variantId: Id,
    key: string,
    status: KeyStatus,
    assignedToOrder: Option<Id>,
    assignedAt: Option<Time>,
    expiresAt: Option<Time>)

  datatype Coupon = Coupon(
    id: Id,
    code: string,
    discountType: DiscountType,
    discountValue: int,
    maxUses: Option<int>,
    currentUses: int,
    minOrderCents: int,
    validFrom: Option<Time>,
    validUntil: Option<Time>,
    active: bool)

  datatype Product = Product(id: Id, slug: string, name: string, status: ProductStatus)

  datatype Variant = Variant(
    id: Id,
    productId: Id,
    name: string,
    durationDays: Option<int>,
    priceCents: int,
    sortOrder: int,
    active: bool)

  function OrderId(o: Order): nat { o.id }
  function KeyId(k: LicenseKey): nat { k.id }

  /** The row filters the queries use, as named values so that two uses of
      the same filter are the same function. */
  function OrderIs(id: Id): Order -> bool { (o: Order) => o.id == id }
  function KeyIs(id: Id): LicenseKey -> bool { (k: LicenseKey) => k.id == id }
  function CouponIs(id: Id): Coupon -> bool { (c: Coupon) => c.id == id }
  function VariantIs(id: Id): Variant -> bool { (v: Variant) => v.id == id }
  function ProductIs(id: Id): Product -> bool { (p: Product) => p.id == id }

  /** `{...m, k: v}` as stored in a jsonb column: an `undefined` value is
      dropped by JSON serialisation, and with it any earlier value of `k`. */
  function SetMeta(m: Metadata, k: string, v: Option<Json>): (r: Metadata)
    ensures v.Some? ==> k in r && r[k] == v.value
    ensures v.None? ==> k !in r
    ensures forall x :: x in m && x != k ==> x in r && r[x] == m[x]
    ensures forall x :: x in r && x != k ==> x in m
  {
    if v.Some? then m[k := v.value] else m - {k}
  }

  /** The store. Every insert takes the next id from `nextId`, standing for
      the database's fresh uuids. */
  class Db {
    var orders: seq<Order>
    var keys: seq<LicenseKey>
    var coupons: seq<Coupon>
    var products: seq<Product>
    var variants: seq<Variant>
    var nextId: Id

    /** Ids are primary keys of the order and key tables, and no later id
        has been issued yet. */
    predicate Valid()
      reads this
    {
      Rows.Keyed(orders, OrderId, nextId) && Rows.Keyed(keys, KeyId, nextId)
    }

    constructor (products: seq<Product>, variants: seq<Variant>, coupons: seq<Coupon>)
      ensures Valid()
      ensures this.orders == [] && this.keys == []
      ensures this.products == products && this.variants == variants && this.coupons == coupons
    {
      this.orders := [];
      this.keys := [];
      this.coupons := coupons;
      this.products := products;
      this.variants := variants;
      this.nextId := 0;
    }
  }

  /** No table and no id counter changed: what every rejected request and
      every turned-away trigger leaves behind. */
  twostate predicate Untouched(db: Db)
    reads db
  {
    && db.orders == old(db.orders) && db.keys == old(db.keys) && db.coupons == old(db.coupons)
    && db.products == old(db.products) && db.variants == old(db.variants) && db.nextId == old(db.nextId)
  }

  /** The order with a given id: `.eq("id", id).single()`. */
  function FindOrder(orders: seq<Order>, id: Id): (r: Option<Order>)
    ensures r.Some? <==> exists i :: 0 <= i < |orders| && orders[i].id == id
    ensures r.Some? ==> r.value in orders && r.value.id == id
  {
    Rows.First(orders, OrderIs(id))
  }

  function FindKey(keys: seq<LicenseKey>, id: Id): (r: Option<LicenseKey>)
    ensures r.Some? <==> exists i :: 0 <= i < |keys| && keys[i].id == id
    ensures r.Some? ==> r.value in keys && r.value.id == id
  {
    Rows.First(keys, KeyIs(id))
  }

  function FindVariant(variants: seq<Variant>, id: Id): (r: Option<Variant>)
    ensures r.Some? ==> r.value in variants && r.value.id == id
    ensures r.None? ==> forall i :: 0 <= i < |variants| ==> variants[i].id != id
  {
    Rows.First(variants, VariantIs(id))
  }

  function FindProduct(products: seq<Product>, id: Id): (r: Option<Product>)
    ensures r.Some? ==> r.value in products && r.value.id == id
    ensures r.None? ==> forall i :: 0 <= i < |products| ==> products[i].id != id
  {
    Rows.First(products, ProductIs(id))
  }

  function SlugIs(slug: string): Product -> bool { (p: Product) => p.slug == slug }

  /** `getProductBySlug`: the one product with the slug; `null` when there
      is none or the query fails. */
  function ProductBySlug(products: seq<Product>, slug: string, fault: bool): (r: Option<Product>)
    ensures r.Some? ==> !fault && r.value in products && r.value.slug == slug
    ensures !fault && |Rows.Filter(products, SlugIs(slug))| == 1 ==> r.Some?
  {
    if fault then None else Rows.Single(products, SlugIs(slug))
  }

  /** `getVariantById`: the one variant with the id; `null` when there is
      none or the query fails. */
  function VariantById(variants: seq<Variant>, id: Id, fault: bool): (r: Option<Variant>)
    ensures r.Some? ==> !fault && r.value in variants && r.value.id == id
    ensures !fault && |Rows.Filter(variants, VariantIs(id))| == 1 ==> r.Some?
  {
    if fault then None else Rows.Single(variants, VariantIs(id))
  }

  /** With ids a primary key, the `.single()` lookup by id is the first row
      with that id. */
  lemma FindOrderIsSingle(orders: seq<Order>, bound: nat, id: Id)
    requires Rows.Keyed(orders, OrderId, bound)
    ensures Rows.Single(orders, OrderIs(id)) == FindOrder(orders, id)
  {
    Rows.SingleById(orders, OrderId, bound, OrderIs(id), id);
  }

  lemma FindKeyIsSingle(keys: seq<LicenseKey>, bound: nat, id: Id)
    requires Rows.Keyed(keys, KeyId, bound)
    ensures Rows.Single(keys, KeyIs(id)) == FindKey(keys, id)
  {
    Rows.SingleById(keys, KeyId, bound, KeyIs(id), id);
  }

  /** The key id an order row carries before a write: that of the row with
      the same id, `None` for a new row. */
  function KeyBefore(before: seq<Order>, id: Id): Option<Id> {
    match FindOrder(before, id)
    case Some(o) => o.licenseKeyId
    case None => None
  }

  /** The order invariant the triggers keep: a row whose `license_key_id`
      was written is, after the write, "paid" or "completed". */
  predicate KeyWritesSettle(before: seq<Order>, after: seq<Order>) {
    forall j :: 0 <= j < |after| && after[j].licenseKeyId != KeyBefore(before, after[j].id) ==>
      after[j].status.Settled()
  }

  lemma KeyWritesSettleRefl(orders: seq<Order>, bound: nat)
    requires Rows.Keyed(orders, OrderId, bound)
    ensures KeyWritesSettle(orders, orders)
  {
    forall j | 0 <= j < |orders| ensures orders[j].licenseKeyId == KeyBefore(orders, orders[j].id) {
      KeyBeforeOwn(orders, bound, j);
    }
  }

  /** With ids a key, the key id a row carries before a write is its own. */
  lemma KeyBeforeOwn(orders: seq<Order>, bound: nat, j: nat)
    requires Rows.Keyed(orders, OrderId, bound) && j < |orders|
    ensures KeyBefore(orders, orders[j].id) == orders[j].licenseKeyId
  {
    FindOrderIsSingle(orders, bound, orders[j].id);
    Rows.SingleById(orders, OrderId, bound, OrderIs(orders[j].id), orders[j].id);
    var o := FindOrder(orders, orders[j].id).value;
    var i :| 0 <= i < |orders| && orders[i] == o;
    assert orders[i].id == orders[j].id;
  }

  /** An update by id that keeps ids, and either keeps the key id or leaves
      the row settled, keeps the order invariant. */
  lemma UpdateSettles(orders: seq<Order>, bound: nat, id: Id, f: Order -> Order)
    requires Rows.Keyed(orders, OrderId, bound)
    requires forall o :: f(o).id == o.id
    requires forall o :: f(o).licenseKeyId == o.licenseKeyId || f(o).status.Settled()
    ensures KeyWritesSettle(orders, Rows.UpdateWhere(orders, OrderIs(id), f))
  {
    var after := Rows.UpdateWhere(orders, OrderIs(id), f);
    KeyWritesSettleRefl(orders, bound);
    forall j | 0 <= j < |after| && after[j].licenseKeyId != KeyBefore(orders, after[j].id)
      ensures after[j].status.Settled()
    {
      assert after[j] == if orders[j].id == id then f(orders[j]) else orders[j];
    }
  }

  /** Appending a row without a key id keeps the order invariant. */
  lemma InsertSettles(orders: seq<Order>, bound: nat, o: Order)
    requires Rows.Keyed(orders, OrderId, bound) && o.id == bound && o.licenseKeyId.None?
    ensures KeyWritesSettle(orders, orders + [o])
  {
    KeyWritesSettleRefl(orders, bound);
    var after := orders + [o];
    assert FindOrder(orders, o.id).None?;
    forall j | 0 <= j < |after| && after[j].licenseKeyId != KeyBefore(orders, after[j].id)
      ensures after[j].status.Settled()
    {
      if j < |orders| {
        assert after[j] == orders[j];
      }
    }
  }

  /** Deleting rows keeps the order invariant. */
  lemma DeleteSettles(orders: seq<Order>, bound: nat, p: Order -> bool)
    requires Rows.Keyed(orders, OrderId, bound)
    ensures KeyWritesSettle(orders, Rows.Filter(orders, p))
  {
    var after := Rows.Filter(orders, p);
    forall j | 0 <= j < |after| ensures after[j].licenseKeyId == KeyBefore(orders, after[j].id) {
      assert after[j] in orders;
      var i :| 0 <= i < |orders| && orders[i] == after[j];
      KeyBeforeOwn(orders, bound, i);
    }
  }

  /** Every row keeps its place and its id: what an update by id does. */
  predicate SameIds(before: seq<Order>, after: seq<Order>) {
    |before| == |after| && forall j :: 0 <= j < |after| ==> after[j].id == before[j].id
  }

  /** The order invariant, row by row for writes that only update rows: a
      row whose `license_key_id` changed is now "paid" or "completed". */
  predicate KeyWritesSettleInPlace(before: seq<Order>, after: seq<Order>) {
    SameIds(before, after)
    && forall j :: 0 <= j < |after| && after[j].licenseKeyId != before[j].licenseKeyId ==> after[j].status.Settled()
  }

  /** Row-by-row settling is the id-based invariant when ids are a key. */
  lemma InPlaceSettles(before: seq<Order>, after: seq<Order>, bound: nat)
    requires Rows.Keyed(before, OrderId, bound)
    requires KeyWritesSettleInPlace(before, after)
    ensures KeyWritesSettle(before, after)
  {
    KeyWritesSettleRefl(before, bound);
    forall j | 0 <= j < |after| && after[j].licenseKeyId != KeyBefore(before, after[j].id)
      ensures after[j].status.Settled()
    {
      assert before[j].licenseKeyId == KeyBefore(before, before[j].id);
    }
  }

  /** Updating one row by id with a write that keeps ids, and that either
      keeps the key id or settles the row, settles row by row. */
  lemma UpdateSettlesInPlace(orders: seq<Order>, id: Id, f: Order -> Order)
    requires forall o :: f(o).id == o.id
    requires forall o :: f(o).licenseKeyId == o.licenseKeyId || f(o).status.Settled()
    ensures KeyWritesSettleInPlace(orders, Rows.UpdateWhere(orders, OrderIs(id), f))
  {
  }

  /** Key ids held by orders were all issued before `bound`, and no two
      orders hold the same key. */
  predicate KeyRefsFresh(orders: seq<Order>, bound: nat) {
    && (forall j :: 0 <= j < |orders| && orders[j].licenseKeyId.Some? ==> orders[j].licenseKeyId.value < bound)
    && (forall i, j :: 0 <= i < j < |orders| && orders[i].licenseKeyId.Some? ==>
          orders[i].licenseKeyId != orders[j].licenseKeyId)
  }

  /** Writing the id just issued into the one order with a given id keeps
      every key held by at most one order. */
  lemma FreshKeyWrite(orders: seq<Order>, bound: nat, id: Id, f: Order -> Order)
    requires Rows.Keyed(orders, OrderId, bound) && KeyRefsFresh(orders, bound)
    requires forall o :: f(o).id == o.id
    requires forall o :: f(o).licenseKeyId == o.licenseKeyId || f(o).licenseKeyId == Some(bound)
    ensures KeyRefsFresh(Rows.UpdateWhere(orders, OrderIs(id), f), bound + 1)
  {
    var after := Rows.UpdateWhere(orders, OrderIs(id), f);
    forall i, j | 0 <= i < j < |after| && after[i].licenseKeyId.Some?
      ensures after[i].licenseKeyId != after[j].licenseKeyId
    {
      if after[i].licenseKeyId == Some(bound) {
        assert orders[i].id == id;
        assert orders[j].id != id;
      } else if after[j].licenseKeyId == Some(bound) {
        assert orders[i].licenseKeyId.value < bound;
      }
    }
  }

  /** A write that keeps every key id keeps them fresh, whatever it
      issues. */
  lemma KeyRefsKept(orders: seq<Order>, after: seq<Order>, bound: nat, bound': nat)
    requires KeyRefsFresh(orders, bound) && bound <= bound'
    requires |after| == |orders|
    requires forall j :: 0 <= j < |after| ==> after[j].licenseKeyId == orders[j].licenseKeyId
    ensures KeyRefsFresh(after, bound')
  {
  }
}
