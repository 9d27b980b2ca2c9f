/** app/actions/license-keys.ts: the admin's license-key inventory. Stock
    counts per variant, adding a batch of keys without repeating keys the
    store already holds, and deleting and revoking keys. A store error is
    an input: `true` for a failed read, the error's message for a failed
    write. */
module KeyInventory {
  import opened Wrappers
  import opened Store
  import Rows
  import Text
  import LicenseKeys

  // ---------------------------------------------------------------------
  // Stock

  datatype Stock = Stock(total: nat, unused: nat, used: nat)

  function OfVariant(variantId: Id): LicenseKey -> bool {
    (k: LicenseKey) => k.variantId == variantId
  }

  function OfVariantWith(variantId: Id, status: KeyStatus): LicenseKey -> bool {
    (k: LicenseKey) => k.variantId == variantId && k.status == status
  }

  /** The three `count: "exact"` queries for one variant. */
  function StockOf(keys: seq<LicenseKey>, variantId: Id): (s: Stock)
    ensures s.unused + s.used <= s.total <= |keys|
  {
    var s := Stock(Rows.Count(keys, OfVariant(variantId)), Rows.Count(keys, OfVariantWith(variantId, Unused)),
                   Rows.Count(keys, OfVariantWith(variantId, Used)));
    StockBound(keys, variantId);
    s
  }

  /** Unused and used keys of a variant are distinct keys of it. */
  lemma StockBound(keys: seq<LicenseKey>, variantId: Id)
    ensures Rows.Count(keys, OfVariantWith(variantId, Unused)) + Rows.Count(keys, OfVariantWith(variantId, Used))
      <= Rows.Count(keys, OfVariant(variantId))
  {
    var either := (k: LicenseKey) => k.variantId == variantId && (k.status == Unused || k.status == Used);
    Rows.CountDisjoint(keys, OfVariantWith(variantId, Unused), OfVariantWith(variantId, Used), either);
    Rows.CountMonotone(keys, either, OfVariant(variantId));
  }

  function OfProduct(productId: Id): Variant -> bool {
    (v: Variant) => v.productId == productId
  }

  /** `getProductVariantsWithStock`: each variant of the product with its
      stock; nothing when the variant query fails. */
  function VariantsWithStock(variants: seq<Variant>, keys: seq<LicenseKey>, productId: Id, fault: bool)
    : (r: seq<(Variant, Stock)>)
    ensures fault ==> r == []
    ensures !fault ==> |r| == Rows.Count(variants, OfProduct(productId))
    ensures forall i :: 0 <= i < |r| ==>
      r[i].0 in variants && r[i].0.productId == productId && r[i].1 == StockOf(keys, r[i].0.id)
    ensures !fault ==> forall v :: v in variants && v.productId == productId ==> exists i :: 0 <= i < |r| && r[i].0 == v
  {
    if fault then []
    else
      var vs := Rows.Filter(variants, OfProduct(productId));
      var r := seq(|vs|, i requires 0 <= i < |vs| => (vs[i], StockOf(keys, vs[i].id)));
      assert forall v :: v in vs ==> exists i :: 0 <= i < |r| && r[i].0 == v by {
        forall v | v in vs ensures exists i :: 0 <= i < |r| && r[i].0 == v {
          var k :| 0 <= k < |vs| && vs[k] == v;
          assert r[k].0 == v;
        }
      }
      r
  }

  // ---------------------------------------------------------------------
  // addLicenseKeysToVariant

  /** The texts of the batch that the store already holds, under any
      variant; nothing when that query fails. */
  function ExistingTexts(keys: seq<LicenseKey>, cleaned: seq<string>, fault: bool): set<string> {
    if fault then {}
    else set i | 0 <= i < |keys| && keys[i].key in cleaned :: keys[i].key
  }

  /** The existing-keys query finds exactly the batch entries some stored
      key carries. */
  lemma ExistingTextsMeaning(keys: seq<LicenseKey>, cleaned: seq<string>, fault: bool)
    ensures fault ==> ExistingTexts(keys, cleaned, fault) == {}
    ensures !fault ==> forall t :: t in ExistingTexts(keys, cleaned, fault) <==>
      t in cleaned && exists i :: 0 <= i < |keys| && keys[i].key == t
  {
  }

  function NotIn(e: set<string>): string -> bool {
    (t: string) => t !in e
  }

  function In(e: set<string>): string -> bool {
    (t: string) => t in e
  }

  /** The batch entries to insert: those not already held, in batch order,
      repeats within the batch included. */
  function NewTexts(cleaned: seq<string>, existing: set<string>): (r: seq<string>)
    ensures forall i :: 0 <= i < |r| ==> r[i] in cleaned && r[i] !in existing
    ensures forall t :: t in cleaned && t !in existing ==> t in r
  {
    Rows.Filter(cleaned, NotIn(existing))
  }

  datatype AddOutcome = AddOutcome(success: bool, count: nat, duplicates: nat, error: Option<string>)

  /** `addLicenseKeysToVariant`. */
  method AddLicenseKeysToVariant(db: Db, variantId: Id, texts: seq<string>, lookupFault: bool,
                                 insertError: Option<string>) returns (r: AddOutcome)
    requires db.Valid()
    modifies db
    ensures db.Valid()
    ensures db.orders == old(db.orders) && db.coupons == old(db.coupons)
    ensures db.products == old(db.products) && db.variants == old(db.variants)
    ensures var cleaned := Text.TrimmedNonEmpty(texts);
      var incoming := NewTexts(cleaned, ExistingTexts(old(db.keys), cleaned, lookupFault));
      && (cleaned == [] ==>
            r == AddOutcome(false, 0, 0, Some("No valid keys provided")) && Untouched(db))
      && (cleaned != [] && incoming == [] ==>
            r == AddOutcome(false, 0, |cleaned|, Some("All keys already exist in the system")) && Untouched(db))
      && (incoming != [] && insertError.Some? ==>
            r == AddOutcome(false, 0, 0, insertError) && Untouched(db))
      && (incoming != [] && insertError.None? ==>
            && r == AddOutcome(true, |incoming|, |cleaned| - |incoming|, None)
            && db.keys == old(db.keys) + LicenseKeys.UnusedRows(variantId, incoming, old(db.nextId))
            && db.nextId == old(db.nextId) + |incoming|)
  {
    var cleaned := Text.TrimmedNonEmpty(texts);
    if cleaned == [] {
      return AddOutcome(false, 0, 0, Some("No valid keys provided"));
    }
    var existing := ExistingTexts(db.keys, cleaned, lookupFault);
    var incoming := NewTexts(cleaned, existing);
    var duplicates := |cleaned| - |incoming|;
    if incoming == [] {
      return AddOutcome(false, 0, duplicates, Some("All keys already exist in the system"));
    }
    if insertError.Some? {
      return AddOutcome(false, 0, 0, insertError);
    }
    // The same insert as the store's `addLicenseKeys`: the entries are
    // already trimmed, so trimming them again changes nothing.
    var count := LicenseKeys.AddLicenseKeys(db, variantId, incoming, false);
    r := AddOutcome(true, count, duplicates, None);
  }

  /** With the existing-keys query answered, no inserted key repeats one the
      store held, under any variant; each is a trimmed, non-blank input,
      inserted unused for the variant. */
  lemma InsertedKeysAreNew(keys: seq<LicenseKey>, texts: seq<string>, variantId: Id, firstId: Id)
    ensures var cleaned := Text.TrimmedNonEmpty(texts);
      var incoming := NewTexts(cleaned, ExistingTexts(keys, cleaned, false));
      var rows := LicenseKeys.UnusedRows(variantId, incoming, firstId);
      forall i :: 0 <= i < |rows| ==>
        && rows[i].key == incoming[i] && rows[i].key != "" && rows[i].status == Unused && rows[i].variantId == variantId
        && (exists j :: 0 <= j < |texts| && rows[i].key == Text.Trim(texts[j]))
        && forall k :: 0 <= k < |keys| ==> keys[k].key != rows[i].key
  {
    var cleaned := Text.TrimmedNonEmpty(texts);
    var incoming := NewTexts(cleaned, ExistingTexts(keys, cleaned, false));
    forall i | 0 <= i < |incoming|
      ensures Text.Trim(incoming[i]) == incoming[i] && incoming[i] != ""
      ensures exists j :: 0 <= j < |texts| && incoming[i] == Text.Trim(texts[j])
    {
      var c :| 0 <= c < |cleaned| && cleaned[c] == incoming[i];
      Text.TrimmedFrom(texts, c);
      var j :| 0 <= j < |texts| && cleaned[c] == Text.Trim(texts[j]);
      Text.TrimIdempotent(texts[j]);
    }
  }

  /** The duplicates reported are the batch entries the store already held,
      counted with their repeats. */
  lemma DuplicatesCounted(cleaned: seq<string>, existing: set<string>)
    ensures |cleaned| - |NewTexts(cleaned, existing)| == Rows.Count(cleaned, In(existing))
  {
    var any := (t: string) => true;
    Rows.CountDisjoint(cleaned, In(existing), NotIn(existing), any);
    assert Rows.Filter(cleaned, any) == cleaned;
  }

  /** Repeats within one batch are not merged: the same new key given twice
      is inserted twice. */
  lemma RepeatsInBatchKept(t: string)
    requires t != "" && Text.Trim(t) == t
    ensures var cleaned := Text.TrimmedNonEmpty([t, t]);
      NewTexts(cleaned, ExistingTexts([], cleaned, false)) == [t, t]
  {
    var cleaned := Text.TrimmedNonEmpty([t, t]);
    assert Text.TrimmedNonEmpty([t]) == [t] by {
      assert [t][0] == t && [t][1..] == [];
    }
    assert [t, t][0] == t && [t, t][1..] == [t];
    assert cleaned == [t, t];
    assert ExistingTexts([], cleaned, false) == {};
  }

  // ---------------------------------------------------------------------
  // deleteLicenseKey, bulkDeleteUnusedKeys, bulkRevokeKeys

  /** `deleteLicenseKey`: the key's status is read with `.single()`; a key
      read as "used" is refused; otherwise the delete by id is issued. A
      failed read does not stop the delete. */
  method DeleteLicenseKey(db: Db, keyId: Id, lookupFault: bool, deleteError: Option<string>)
    returns (r: Result<()>)
    requires db.Valid()
    modifies db
    ensures db.Valid()
    ensures db.orders == old(db.orders) && db.coupons == old(db.coupons) && db.nextId == old(db.nextId)
    ensures db.products == old(db.products) && db.variants == old(db.variants)
    ensures var read := if lookupFault then None else FindKey(old(db.keys), keyId);
      && (read.Some? && read.value.status == Used ==>
            r == Failure("Cannot delete a used license key") && Untouched(db))
      && (!(read.Some? && read.value.status == Used) && deleteError.Some? ==>
            r == Failure(deleteError.value) && Untouched(db))
      && (!(read.Some? && read.value.status == Used) && deleteError.None? ==>
            r.Success? && db.keys == Rows.DeleteWhere(old(db.keys), KeyIs(keyId)))
    ensures !lookupFault ==> forall k :: k in old(db.keys) && k.status == Used ==> k in db.keys
  {
    Store.FindKeyIsSingle(db.keys, db.nextId, keyId);
    var read := if lookupFault then None else Rows.Single(db.keys, KeyIs(keyId));
    if read.Some? && read.value.status == Used {
      return Failure("Cannot delete a used license key");
    }
    if deleteError.Some? {
      return Failure(deleteError.value);
    }
    if !lookupFault {
      UsedKeysSurvive(db.keys, keyId, db.nextId);
    }
    Rows.FilterKeyed(db.keys, KeyId, db.nextId, Rows.Not(KeyIs(keyId)));
    db.keys := Rows.DeleteWhere(db.keys, KeyIs(keyId));
    r := Success(());
  }

  /** When the key with the id is not a used one, deleting it keeps every
      used key. */
  lemma UsedKeysSurvive(keys: seq<LicenseKey>, keyId: Id, bound: nat)
    requires Rows.Keyed(keys, KeyId, bound)
    requires FindKey(keys, keyId).None? || FindKey(keys, keyId).value.status != Used
    ensures forall k :: k in keys && k.status == Used ==> k in Rows.DeleteWhere(keys, KeyIs(keyId))
  {
    forall k | k in keys && k.status == Used ensures k in Rows.DeleteWhere(keys, KeyIs(keyId)) {
      var i :| 0 <= i < |keys| && keys[i] == k;
      FoundById(keys, bound, i);
    }
  }

  /** With ids a primary key, the lookup by a row's id finds that row. */
  lemma FoundById(keys: seq<LicenseKey>, bound: nat, i: nat)
    requires Rows.Keyed(keys, KeyId, bound) && i < |keys|
    ensures FindKey(keys, keys[i].id) == Some(keys[i])
  {
    var id := keys[i].id;
    Rows.SingleById(keys, KeyId, bound, KeyIs(id), id);
    var m := Rows.Filter(keys, KeyIs(id));
    assert keys[i] in m;
  }

  /** `bulkDeleteUnusedKeys`: deletes the variant's unused keys and reports
      how many. */
  method BulkDeleteUnusedKeys(db: Db, variantId: Id, deleteError: Option<string>) returns (r: Result<nat>)
    requires db.Valid()
    modifies db
    ensures db.Valid()
    ensures db.orders == old(db.orders) && db.coupons == old(db.coupons) && db.nextId == old(db.nextId)
    ensures db.products == old(db.products) && db.variants == old(db.variants)
    ensures deleteError.Some? ==> r == Failure(deleteError.value) && Untouched(db)
    ensures deleteError.None? ==>
      && r == Success(Rows.Count(old(db.keys), OfVariantWith(variantId, Unused)))
      && db.keys == Rows.DeleteWhere(old(db.keys), OfVariantWith(variantId, Unused))
  {
    if deleteError.Some? {
      return Failure(deleteError.value);
    }
    var doomed := OfVariantWith(variantId, Unused);
    Rows.FilterKeyed(db.keys, KeyId, db.nextId, Rows.Not(doomed));
    r := Success(Rows.Count(db.keys, doomed));
    db.keys := Rows.DeleteWhere(db.keys, doomed);
  }

  /** The bulk delete removes exactly the variant's unused keys: the count
      reported and the rows left add up to the table, no unused key of the
      variant is left, and every other key is kept, in order. */
  lemma {:induction false} BulkDeleteExact(keys: seq<LicenseKey>, variantId: Id)
    ensures var doomed := OfVariantWith(variantId, Unused);
      var after := Rows.DeleteWhere(keys, doomed);
      && |after| + Rows.Count(keys, doomed) == |keys|
      && (forall k :: k in after ==> !(k.variantId == variantId && k.status == Unused))
      && (forall k :: k in keys && !(k.variantId == variantId && k.status == Unused) ==> k in after)
  {
    var doomed := OfVariantWith(variantId, Unused);
    var any := (k: LicenseKey) => true;
    Rows.CountDisjoint(keys, doomed, Rows.Not(doomed), any);
    assert Rows.Filter(keys, any) == keys;
  }

  /** The rows `bulkRevokeKeys` updates: ids in the list that belong to
      the variant. */
  function Listed(variantId: Id, keyIds: seq<Id>): LicenseKey -> bool {
    (k: LicenseKey) => k.id in keyIds && k.variantId == variantId
  }

  /** `bulkRevokeKeys`: revokes the listed keys of the variant, whatever
      their status, and reports how many. */
  method BulkRevokeKeys(db: Db, variantId: Id, keyIds: seq<Id>, updateError: Option<string>) returns (r: Result<nat>)
    requires db.Valid()
    modifies db
    ensures db.Valid()
    ensures db.orders == old(db.orders) && db.coupons == old(db.coupons) && db.nextId == old(db.nextId)
    ensures db.products == old(db.products) && db.variants == old(db.variants)
    ensures updateError.Some? ==> r == Failure(updateError.value) && Untouched(db)
    ensures updateError.None? ==>
      && r == Success(Rows.Count(old(db.keys), Listed(variantId, keyIds)))
      && db.keys == Rows.UpdateWhere(old(db.keys), Listed(variantId, keyIds), LicenseKeys.RevokeRow())
  {
    if updateError.Some? {
      return Failure(updateError.value);
    }
    var target := Listed(variantId, keyIds);
    Rows.UpdateKeyed(db.keys, KeyId, db.nextId, target, LicenseKeys.RevokeRow());
    r := Success(Rows.Count(db.keys, target));
    db.keys := Rows.UpdateWhere(db.keys, target, LicenseKeys.RevokeRow());
  }

  /** A bulk revoke changes a key exactly when its id is listed and it
      belongs to the variant, and then only its status, to "revoked". */
  lemma BulkRevokeExact(keys: seq<LicenseKey>, variantId: Id, keyIds: seq<Id>, i: nat)
    requires i < |keys|
    ensures var after := Rows.UpdateWhere(keys, Listed(variantId, keyIds), LicenseKeys.RevokeRow());
      && |after| == |keys|
      && (keys[i].id in keyIds && keys[i].variantId == variantId ==> after[i] == keys[i].(status := Revoked))
      && (!(keys[i].id in keyIds && keys[i].variantId == variantId) ==> after[i] == keys[i])
  {
  }
}
