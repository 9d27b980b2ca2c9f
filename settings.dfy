/** lib/db/settings.ts: the `site_settings` key/value table, read with a
    fallback to built-in defaults and written by upsert on the key. */
module SiteSettings {
  import opened Wrappers
  import opened Json
  import Rows

  datatype SettingRow = SettingRow(key: string, value: Json)

  /** A settings object: a value for each known key. */
  type Settings = map<string, Json>

  /** `defaultSettings`. */
  const Defaults: Settings := map[
    "payment_provider" := JStr("stripe"),
    "cardsetup_store_url" := JStr("https://warpcheats.com"),
    "site_name" := JStr("Warp Cheats"),
    "site_url" := JStr("https://warpcheats.com"),
    "maintenance_mode" := JBool(false)
  ]

  lemma DefaultValues()
    ensures Defaults.Keys == {"payment_provider", "cardsetup_store_url", "site_name", "site_url", "maintenance_mode"}
    ensures Defaults["payment_provider"] == JStr("stripe") && Defaults["maintenance_mode"] == JBool(false)
  {
  }

  function KeyIs(key: string): SettingRow -> bool {
    (r: SettingRow) => r.key == key
  }

  /** `getSetting`: the stored value of the one row with the key, or the
      default when there is no such row or the query fails. */
  function GetSetting(rows: seq<SettingRow>, key: string, fault: bool): (v: Json)
    requires key in Defaults
    ensures fault || (forall i :: 0 <= i < |rows| ==> rows[i].key != key) ==> v == Defaults[key]
    ensures !fault && |Rows.Filter(rows, KeyIs(key))| == 1 ==>
      exists i :: 0 <= i < |rows| && rows[i].key == key && rows[i].value == v
    ensures v != Defaults[key] ==> !fault && exists i :: 0 <= i < |rows| && rows[i].key == key && rows[i].value == v
  {
    if fault then Defaults[key]
    else match Rows.Single(rows, KeyIs(key))
      case None => Defaults[key]
      case Some(r) => r.value
  }

  /** `getPaymentProvider`. */
  function GetPaymentProvider(rows: seq<SettingRow>, fault: bool): (v: Json)
    ensures fault ==> v == JStr("stripe")
    ensures v != JStr("stripe") ==>
      !fault && exists i :: 0 <= i < |rows| && rows[i].key == "payment_provider" && rows[i].value == v
  {
    GetSetting(rows, "payment_provider", fault)
  }

  /** The value of the last row with the key, if any. */
  function LastValue(rows: seq<SettingRow>, key: string): (v: Option<Json>)
    ensures v.None? <==> forall i :: 0 <= i < |rows| ==> rows[i].key != key
  {
    if rows == [] then None
    else if rows[|rows| - 1].key == key then Some(rows[|rows| - 1].value)
    else LastValue(rows[..|rows| - 1], key)
  }

  /** The settings after copying the rows, in order, over the defaults. */
  function Merged(rows: seq<SettingRow>): (s: Settings)
    ensures s.Keys == Defaults.Keys
  {
    if rows == [] then Defaults
    else
      var s := Merged(rows[..|rows| - 1]);
      var row := rows[|rows| - 1];
      if row.key in s then s[row.key := row.value] else s
  }

  /** What `getAllSettings` promises: exactly the known keys, each with the
      value of the last row for it, or its default when no row has it;
      rows with unknown keys change nothing. */
  lemma {:induction false} MergedValue(rows: seq<SettingRow>, key: string)
    requires key in Defaults
    ensures Merged(rows)[key] == LastValue(rows, key).GetOr(Defaults[key])
  {
    if rows != [] {
      MergedValue(rows[..|rows| - 1], key);
    }
  }

  /** The `site_settings` table. */
  class Table {
    var rows: seq<SettingRow>

    /** `key` is the table's conflict target: one row per key. */
    predicate Valid()
      reads this
    {
      forall i, j :: 0 <= i < j < |rows| ==> rows[i].key != rows[j].key
    }

    constructor ()
      ensures Valid() && rows == []
    {
      rows := [];
    }

    /** `getAllSettings`: a copy of the defaults, overwritten key by key
        from the stored rows; the defaults themselves when the query
        fails. */
    method GetAllSettings(fault: bool) returns (s: Settings)
      ensures fault ==> s == Defaults
      ensures !fault ==> s == Merged(rows)
    {
      s := Defaults;
      if fault {
        return;
      }
      for i := 0 to |rows|
        invariant s == Merged(rows[..i])
      {
        var row := rows[i];
        assert rows[..i + 1][..i] == rows[..i];
        if row.key in s {
          s := s[row.key := row.value];
        }
      }
      assert rows[..|rows|] == rows;
    }

    /** `updateSetting`: replaces the value of the row with the key, or adds
        a row for it; a store error changes nothing and is thrown. */
    method UpdateSetting(key: string, value: Json, fault: bool) returns (r: Result<()>)
      requires Valid()
      modifies this
      ensures Valid()
      ensures fault ==> r == Failure("Failed to update setting") && rows == old(rows)
      ensures !fault ==> r.Success? && rows == Upsert(old(rows), key, value)
    {
      if fault {
        return Failure("Failed to update setting");
      }
      UpsertKeepsKeys(rows, key, value);
      rows := Upsert(rows, key, value);
      r := Success(());
    }
  }

  /** An upsert on the key: the row with the key gets the new value, or a
      row is added at the end. */
  function Upsert(rows: seq<SettingRow>, key: string, value: Json): (r: seq<SettingRow>)
  {
    if exists i :: 0 <= i < |rows| && rows[i].key == key then
      Rows.UpdateWhere(rows, KeyIs(key), (row: SettingRow) => row.(value := value))
    else rows + [SettingRow(key, value)]
  }

  lemma UpsertKeepsKeys(rows: seq<SettingRow>, key: string, value: Json)
    requires forall i, j :: 0 <= i < j < |rows| ==> rows[i].key != rows[j].key
    ensures var r := Upsert(rows, key, value);
      forall i, j :: 0 <= i < j < |r| ==> r[i].key != r[j].key
  {
  }

  /** After an upsert, reading the key gives the value written, and every
      other key reads as before. */
  lemma UpsertThenGet(rows: seq<SettingRow>, key: string, value: Json, other: string)
    requires forall i, j :: 0 <= i < j < |rows| ==> rows[i].key != rows[j].key
    requires key in Defaults && other in Defaults && other != key
    ensures GetSetting(Upsert(rows, key, value), key, false) == value
    ensures GetSetting(Upsert(rows, key, value), other, false) == GetSetting(rows, other, false)
  {
    if exists i :: 0 <= i < |rows| && rows[i].key == key {
      var i :| 0 <= i < |rows| && rows[i].key == key;
      UpdateThenGet(rows, key, value, other, i);
    } else {
      AppendThenGet(rows, key, value, other);
    }
  }

  /** The upsert that finds a row with the key. */
  lemma UpdateThenGet(rows: seq<SettingRow>, key: string, value: Json, other: string, i: nat)
    requires forall i, j :: 0 <= i < j < |rows| ==> rows[i].key != rows[j].key
    requires key in Defaults && other in Defaults && other != key
    requires i < |rows| && rows[i].key == key
    ensures GetSetting(Upsert(rows, key, value), key, false) == value
    ensures GetSetting(Upsert(rows, key, value), other, false) == GetSetting(rows, other, false)
  {
    var r := Upsert(rows, key, value);
    assert r == Rows.UpdateWhere(rows, KeyIs(key), (row: SettingRow) => row.(value := value));
    UpsertKeepsKeys(rows, key, value);
    assert r[i] == rows[i].(value := value);
    UniqueFilter(r, key, i);
    OtherRowsKept(rows, key, value, other);
  }

  /** The upsert that adds a row for the key. */
  lemma AppendThenGet(rows: seq<SettingRow>, key: string, value: Json, other: string)
    requires forall i, j :: 0 <= i < j < |rows| ==> rows[i].key != rows[j].key
    requires key in Defaults && other in Defaults && other != key
    requires forall i :: 0 <= i < |rows| ==> rows[i].key != key
    ensures GetSetting(Upsert(rows, key, value), key, false) == value
    ensures GetSetting(Upsert(rows, key, value), other, false) == GetSetting(rows, other, false)
  {
    var r := Upsert(rows, key, value);
    assert r == rows + [SettingRow(key, value)];
    UpsertKeepsKeys(rows, key, value);
    UniqueFilter(r, key, |rows|);
    Rows.FilterAppend(rows, [SettingRow(key, value)], KeyIs(other));
  }

  /** With one row per key, the `.single()` read by key finds the row with
      that key whenever there is one. */
  lemma UniqueKeySingle(rows: seq<SettingRow>, key: string)
    requires forall i, j :: 0 <= i < j < |rows| ==> rows[i].key != rows[j].key
    ensures forall i :: 0 <= i < |rows| && rows[i].key == key ==> Rows.Single(rows, KeyIs(key)) == Some(rows[i])
    ensures (forall i :: 0 <= i < |rows| ==> rows[i].key != key) ==> Rows.Single(rows, KeyIs(key)).None?
  {
    forall i | 0 <= i < |rows| && rows[i].key == key ensures Rows.Single(rows, KeyIs(key)) == Some(rows[i]) {
      UniqueFilter(rows, key, i);
    }
  }

  lemma {:induction false} UniqueFilter(rows: seq<SettingRow>, key: string, i: nat)
    requires forall a, b :: 0 <= a < b < |rows| ==> rows[a].key != rows[b].key
    requires i < |rows| && rows[i].key == key
    ensures Rows.Filter(rows, KeyIs(key)) == [rows[i]]
  {
    var tail := rows[1..];
    if i == 0 {
      assert forall a :: 0 <= a < |tail| ==> tail[a] == rows[a + 1];
      assert Rows.Filter(tail, KeyIs(key)) == [];
    } else {
      UniqueFilter(tail, key, i - 1);
    }
  }

  /** An upsert of an existing key leaves the rows of the other keys. */
  lemma OtherRowsKept(rows: seq<SettingRow>, key: string, value: Json, other: string)
    requires other != key
    ensures Rows.Filter(Rows.UpdateWhere(rows, KeyIs(key), (row: SettingRow) => row.(value := value)), KeyIs(other))
      == Rows.Filter(rows, KeyIs(other))
  {
    var f := (row: SettingRow) => row.(value := value);
    Rows.FilterUpdate(rows, KeyIs(key), f, KeyIs(other));
    var m := Rows.Filter(rows, KeyIs(other));
    assert Rows.UpdateWhere(m, KeyIs(key), f) == m;
  }
}
