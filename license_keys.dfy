/** lib/db/license-keys.ts: license-key strings, their expiry, and the
    writes to the key table. */
module LicenseKeys {
  import opened Wrappers
  import opened Store
  import Rows
  import Text

  /** The 32 characters a generated key is drawn from: no 0, 1, I or O. */
  const Alphabet: string := "ABCDEFGHJKLMNPQRSTUVWXYZ23456789"
  const SegmentCount: nat := 4
  const SegmentLength: nat := 5
  const DrawCount: nat := 20
  const MsPerDay: int := 24 * 60 * 60 * 1000

  /** One `Math.floor(Math.random() * chars.length)`: an index into the
      alphabet. */
  type Draw = d: nat | d < 32

  /** Segment `i` of the key the draws spell. */
  function Segment(draws: seq<Draw>, i: nat): (s: string)
    requires |draws| == DrawCount && i < SegmentCount
    ensures |s| == SegmentLength
    ensures forall j :: 0 <= j < SegmentLength ==> s[j] == Alphabet[draws[i * SegmentLength + j]]
  {
    seq(SegmentLength, j requires 0 <= j < SegmentLength => Alphabet[draws[i * SegmentLength + j]])
  }

  /** The key `generateLicenseKey` returns for the given draws: the four
      segments joined by "-". */
  function KeyFromDraws(draws: seq<Draw>): string
    requires |draws| == DrawCount
  {
    Text.Join(seq(SegmentCount, i requires 0 <= i < SegmentCount => Segment(draws, i)), "-")
  }

  /** `generateLicenseKey`: two nested loops append one drawn character at
      a time to a segment and push each segment. */
  method GenerateLicenseKey(draws: seq<Draw>) returns (key: string)
    requires |draws| == DrawCount
    ensures key == KeyFromDraws(draws)
  {
    var keyParts: seq<string> := [];
    for i := 0 to SegmentCount
      invariant |keyParts| == i
      invariant forall k :: 0 <= k < i ==> keyParts[k] == Segment(draws, k)
    {
      var segment := "";
      for j := 0 to SegmentLength
        invariant |segment| == j
        invariant forall m :: 0 <= m < j ==> segment[m] == Alphabet[draws[i * SegmentLength + m]]
      {
        segment := segment + [Alphabet[draws[i * SegmentLength + j]]];
      }
      assert segment == Segment(draws, i);
      keyParts := keyParts + [segment];
    }
    assert keyParts == seq(SegmentCount, i requires 0 <= i < SegmentCount => Segment(draws, i));
    key := Text.Join(keyParts, "-");
  }

  /** The position of a key character in the alphabet (32 when absent). */
  function DrawOf(c: char): (d: nat)
    ensures d <= 32
  {
    if 'A' <= c <= 'H' then c as int - 'A' as int
    else if 'J' <= c <= 'N' then c as int - 'A' as int - 1
    else if 'P' <= c <= 'Z' then c as int - 'A' as int - 2
    else if '2' <= c <= '9' then c as int - '2' as int + 24
    else 32
  }

  /** Every alphabet character is read back as its own index, so the
      alphabet has 32 distinct characters. */
  lemma AlphabetIndex(d: Draw)
    ensures DrawOf(Alphabet[d]) == d
    ensures Alphabet[d] !in "01IO-"
  {
  }

  /** A generated key is four segments of five characters joined by "-": 23
      characters with "-" at 5, 11 and 17, every other character from the
      alphabet (so never 0, 1, I or O), and each character spells its
      draw. */
  lemma {:induction false} KeyShape(draws: seq<Draw>)
    requires |draws| == DrawCount
    ensures var k := KeyFromDraws(draws);
      && |k| == 23
      && k[5] == '-' && k[11] == '-' && k[17] == '-'
      && (forall p :: 0 <= p < |k| && p % 6 != 5 ==>
            k[p] == Alphabet[draws[p / 6 * 5 + p % 6]]
            && DrawOf(k[p]) == draws[p / 6 * 5 + p % 6]
            && k[p] !in "01IO-")
  {
    var k := KeyFromDraws(draws);
    KeyPieces(draws);
    forall p | 0 <= p < |k| && p % 6 != 5
      ensures k[p] == Alphabet[draws[p / 6 * 5 + p % 6]]
      ensures DrawOf(k[p]) == draws[p / 6 * 5 + p % 6] && k[p] !in "01IO-"
    {
      var i, j := p / 6, p % 6;
      assert p == 6 * i + j;
      KeyChar(draws, i, j);
      AlphabetIndex(draws[5 * i + j]);
    }
  }

  /** The key written out as its four segments. */
  lemma KeyPieces(draws: seq<Draw>)
    requires |draws| == DrawCount
    ensures KeyFromDraws(draws)
         == Segment(draws, 0) + "-" + (Segment(draws, 1) + "-" + (Segment(draws, 2) + "-" + Segment(draws, 3)))
  {
    var parts := seq(SegmentCount, i requires 0 <= i < SegmentCount => Segment(draws, i));
    assert Text.Join(parts[3..], "-") == parts[3];
    assert parts[2..][1..] == parts[3..] && parts[1..][1..] == parts[2..];
    assert Text.Join(parts[2..], "-") == parts[2] + "-" + parts[3];
    assert Text.Join(parts[1..], "-") == parts[1] + "-" + (parts[2] + "-" + parts[3]);
  }

  /** Character `j` of segment `i` sits at position `6 * i + j` of the key. */
  lemma KeyChar(draws: seq<Draw>, i: nat, j: nat)
    requires |draws| == DrawCount && i < SegmentCount && j < SegmentLength
    ensures |KeyFromDraws(draws)| == 23
    ensures KeyFromDraws(draws)[6 * i + j] == Alphabet[draws[5 * i + j]]
  {
    KeyPieces(draws);
    var s0, s1, s2, s3 := Segment(draws, 0), Segment(draws, 1), Segment(draws, 2), Segment(draws, 3);
    var k := KeyFromDraws(draws);
    if i == 0 {
      assert k[j] == s0[j];
    } else if i == 1 {
      assert k[6 + j] == s1[j];
    } else if i == 2 {
      assert k[12 + j] == s2[j];
    } else {
      assert k[18 + j] == s3[j];
    }
  }

  /** Distinct draws give distinct keys: the key determines the draws. */
  lemma KeyDeterminesDraws(a: seq<Draw>, b: seq<Draw>)
    requires |a| == DrawCount && |b| == DrawCount
    requires KeyFromDraws(a) == KeyFromDraws(b)
    ensures a == b
  {
    KeyShape(a);
    KeyShape(b);
    forall n | 0 <= n < DrawCount ensures a[n] == b[n] {
      var p := n / 5 * 6 + n % 5;
      assert p / 6 * 5 + p % 6 == n;
      assert KeyFromDraws(a)[p] == KeyFromDraws(b)[p];
    }
  }

  /** `expires_at`: `null` when the duration is null or 0, otherwise
      `now + durationDays` days. */
  function ExpiresAt(durationDays: Option<int>, now: Time): (r: Option<Time>)
  {
    if durationDays.Some? && durationDays.value != 0 then Some(now + durationDays.value * MsPerDay)
    else None
  }

  /** The expiry is set exactly for a non-zero duration, and the whole days
      between now and the expiry are the duration. */
  lemma ExpiryDays(durationDays: Option<int>, now: Time)
    ensures ExpiresAt(durationDays, now).None? <==> durationDays.None? || durationDays.value == 0
    ensures ExpiresAt(durationDays, now).Some? ==>
      (ExpiresAt(durationDays, now).value - now) / MsPerDay == durationDays.value
      && (ExpiresAt(durationDays, now).value - now) % MsPerDay == 0
    ensures ExpiresAt(durationDays, now).Some? && durationDays.value > 0 ==>
      ExpiresAt(durationDays, now).value >= now + MsPerDay
  {
  }

  /** `customKey || generateLicenseKey()`. */
  function KeyText(customKey: Option<string>, generated: string): string {
    if customKey.Some? && customKey.value != "" then customKey.value else generated
  }

  /** `createLicenseKeyForOrder`: inserts one "used" key assigned to the
      order; a store error (`fault`) inserts nothing and gives `null`. The
      arguments are taken in the declared order (variant first). */
  method CreateLicenseKeyForOrder(
    db: Db, variantId: Id, orderId: Id, durationDays: Option<int>, customKey: Option<string>,
    draws: seq<Draw>, now: Time, fault: bool) returns (r: Option<LicenseKey>)
    requires db.Valid() && |draws| == DrawCount
    modifies db
    ensures db.Valid()
    ensures r.None? <==> fault
    ensures fault ==> db.keys == old(db.keys) && db.nextId == old(db.nextId)
    ensures r.Some? ==>
      && db.keys == old(db.keys) + [r.value]
      && db.nextId == old(db.nextId) + 1
      && r.value.id == old(db.nextId)
      && r.value.variantId == variantId
      && r.value.key == KeyText(customKey, KeyFromDraws(draws))
      && r.value.status == Used
      && r.value.assignedToOrder == Some(orderId)
      && r.value.assignedAt == Some(now)
      && r.value.expiresAt == ExpiresAt(durationDays, now)
    ensures db.orders == old(db.orders) && db.coupons == old(db.coupons)
    ensures db.products == old(db.products) && db.variants == old(db.variants)
  {
    var text: string;
    if customKey.Some? && customKey.value != "" {
      text := customKey.value;
    } else {
      text := GenerateLicenseKey(draws);
    }
    var expiresAt := ExpiresAt(durationDays, now);
    if fault {
      return None;
    }
    var row := LicenseKey(db.nextId, variantId, text, Used, Some(orderId), Some(now), expiresAt);
    Rows.AppendFresh(db.keys, KeyId, db.nextId, row);
    Rows.RaiseBound(db.orders, OrderId, db.nextId, db.nextId + 1);
    db.keys := db.keys + [row];
    db.nextId := db.nextId + 1;
    r := Some(row);
  }

  /** The filter of `getAvailableLicenseKey`. */
  function AvailableFor(variantId: Id): LicenseKey -> bool {
    (k: LicenseKey) => k.variantId == variantId && k.status == Unused
  }

  /** `getAvailableLicenseKey`: an unused key of the variant, whenever one
      exists and the query succeeds. */
  function GetAvailableLicenseKey(keys: seq<LicenseKey>, variantId: Id, fault: bool): (r: Option<LicenseKey>)
    ensures r.Some? ==> r.value in keys && r.value.variantId == variantId && r.value.status == Unused
    ensures r.None? <==> fault || forall i :: 0 <= i < |keys| ==> !(keys[i].variantId == variantId && keys[i].status == Unused)
  {
    if fault then None else Rows.First(keys, AvailableFor(variantId))
  }

  /** The filter of `assignLicenseKeyToOrder`: the key, if still unused. */
  function UnusedWithId(id: Id): LicenseKey -> bool {
    (k: LicenseKey) => k.id == id && k.status == Unused
  }

  function AssignRow(orderId: Id, now: Time, expiresAt: Option<Time>): LicenseKey -> LicenseKey {
    (k: LicenseKey) => k.(status := Used, assignedToOrder := Some(orderId), assignedAt := Some(now), expiresAt := expiresAt)
  }

  /** `assignLicenseKeyToOrder`: only a key that is still "unused" is
      marked used for the order; any other key is left untouched and the
      result is `null`. */
  method AssignLicenseKeyToOrder(db: Db, keyId: Id, orderId: Id, durationDays: Option<int>, now: Time, fault: bool)
    returns (r: Option<LicenseKey>)
    requires db.Valid()
    modifies db
    ensures db.Valid()
    ensures var k := FindKey(old(db.keys), keyId);
      if fault || k.None? || k.value.status != Unused then
        r.None? && db.keys == old(db.keys)
      else
        r == Some(AssignRow(orderId, now, ExpiresAt(durationDays, now))(k.value))
        && db.keys == Rows.UpdateWhere(old(db.keys), KeyIs(keyId), AssignRow(orderId, now, ExpiresAt(durationDays, now)))
    ensures db.orders == old(db.orders) && db.coupons == old(db.coupons) && db.nextId == old(db.nextId)
    ensures db.products == old(db.products) && db.variants == old(db.variants)
  {
    var expiresAt := ExpiresAt(durationDays, now);
    var k := FindKey(db.keys, keyId);
    if fault || k.None? || k.value.status != Unused {
      return None;
    }
    var f := AssignRow(orderId, now, expiresAt);
    Rows.UpdateKeyed(db.keys, KeyId, db.nextId, KeyIs(keyId), f);
    db.keys := Rows.UpdateWhere(db.keys, KeyIs(keyId), f);
    r := Some(f(k.value));
  }

  /** The rows `addLicenseKeys` inserts: one per input, trimmed, "unused",
      with consecutive fresh ids. */
  function UnusedRows(variantId: Id, texts: seq<string>, firstId: Id): (rows: seq<LicenseKey>)
    ensures |rows| == |texts|
    ensures forall i :: 0 <= i < |texts| ==>
      rows[i] == LicenseKey(firstId + i, variantId, Text.Trim(texts[i]), Unused, None, None, None)
  {
    seq(|texts|, i requires 0 <= i < |texts| =>
      LicenseKey(firstId + i, variantId, Text.Trim(texts[i]), Unused, None, None, None))
  }

  /** `addLicenseKeys` (lib/db): inserts every input trimmed, empty ones
      included, and returns how many; a store error inserts none and gives
      0. */
  method AddLicenseKeys(db: Db, variantId: Id, texts: seq<string>, fault: bool) returns (count: nat)
    requires db.Valid()
    modifies db
    ensures db.Valid()
    ensures fault ==> count == 0 && db.keys == old(db.keys) && db.nextId == old(db.nextId)
    ensures !fault ==>
      && count == |texts|
      && db.keys == old(db.keys) + UnusedRows(variantId, texts, old(db.nextId))
      && db.nextId == old(db.nextId) + |texts|
    ensures db.orders == old(db.orders) && db.coupons == old(db.coupons)
    ensures db.products == old(db.products) && db.variants == old(db.variants)
  {
    if fault {
      return 0;
    }
    var rows := UnusedRows(variantId, texts, db.nextId);
    Rows.AppendFreshBatch(db.keys, KeyId, db.nextId, rows);
    Rows.RaiseBound(db.orders, OrderId, db.nextId, db.nextId + |rows|);
    db.keys := db.keys + rows;
    db.nextId := db.nextId + |rows|;
    count := |rows|;
  }

  function RevokeRow(): LicenseKey -> LicenseKey {
    (k: LicenseKey) => k.(status := Revoked)
  }

  /** `revokeLicenseKey`: sets only the status, to "revoked"; true iff the
      store reported no error. */
  method RevokeLicenseKey(db: Db, keyId: Id, fault: bool) returns (ok: bool)
    requires db.Valid()
    modifies db
    ensures db.Valid()
    ensures ok == !fault
    ensures db.keys == if fault then old(db.keys) else Rows.UpdateWhere(old(db.keys), KeyIs(keyId), RevokeRow())
    ensures db.orders == old(db.orders) && db.coupons == old(db.coupons) && db.nextId == old(db.nextId)
    ensures db.products == old(db.products) && db.variants == old(db.variants)
  {
    if fault {
      return false;
    }
    Rows.UpdateKeyed(db.keys, KeyId, db.nextId, KeyIs(keyId), RevokeRow());
    db.keys := Rows.UpdateWhere(db.keys, KeyIs(keyId), RevokeRow());
    ok := true;
  }

  /** A revoke changes the status of the one key and nothing else. */
  lemma RevokeOnlyStatus(keys: seq<LicenseKey>, keyId: Id, i: nat)
    requires i < |keys|
    ensures var after := Rows.UpdateWhere(keys, KeyIs(keyId), RevokeRow());
      && (keys[i].id == keyId ==> after[i] == keys[i].(status := Revoked))
      && (keys[i].id != keyId ==> after[i] == keys[i])
  {
  }
}
