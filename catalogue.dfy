/** lib/products.ts: the static product catalogue and its two lookups. The
    descriptions, feature lists, images and dates are display text and are
    not part of the model. */
module Catalogue {
  import opened Wrappers
  import Rows
  import Text

  datatype Status = Undetected | Updating | Detected | Testing

  datatype Entry = Entry(id: string, name: string, game: string, priceInCents: nat, status: Status, popular: bool)

  /** `PRODUCTS`, in declaration order. */
  const Products: seq<Entry> := [
    Entry("valorant-pro", "Valorant Pro", "Valorant", 4999, Undetected, true),
    Entry("fortnite-elite", "Fortnite Elite", "Fortnite", 3999, Undetected, true),
    Entry("apex-legends-master", "Apex Master", "Apex Legends", 4499, Undetected, false),
    Entry("warzone-ultimate", "Warzone Ultimate", "Call of Duty: Warzone", 5999, Undetected, true),
    Entry("rust-dominator", "Rust Dominator", "Rust", 4499, Updating, false),
    Entry("cs2-pro", "CS2 Professional", "Counter-Strike 2", 3999, Undetected, false),
    Entry("pubg-tactical", "PUBG Tactical", "PUBG", 3499, Undetected, false),
    Entry("escape-tarkov-elite", "Tarkov Elite", "Escape from Tarkov", 5499, Testing, false)
  ]

  /** No two catalogue entries share an id. */
  lemma IdsDistinct()
    ensures |Products| == 8
    ensures forall i, j :: 0 <= i < j < |Products| ==> Products[i].id != Products[j].id
  {
    // The ids already differ in their first letters.
    var initials := "vfawrcpe";
    assert forall i :: 0 <= i < |Products| ==> Products[i].id[0] == initials[i];
    assert forall i, j :: 0 <= i < j < |initials| ==> initials[i] != initials[j];
  }

  function HasId(id: string): Entry -> bool {
    (p: Entry) => p.id == id
  }

  /** `getProductById`: the first entry with the id, `undefined` when there
      is none. */
  function GetProductById(id: string): (r: Option<Entry>)
    ensures r.Some? <==> exists i :: 0 <= i < |Products| && Products[i].id == id
    ensures r.Some? ==> r.value in Products && r.value.id == id
  {
    Rows.First(Products, HasId(id))
  }

  /** Since ids are distinct, the entry found is the only one with the id:
      every entry is found by its own id. */
  lemma ProductByOwnId(i: nat)
    requires i < |Products|
    ensures GetProductById(Products[i].id) == Some(Products[i])
  {
    IdsDistinct();
    var r := GetProductById(Products[i].id);
    var j :| 0 <= j < |Products| && Products[j] == r.value;
    assert Products[j].id == Products[i].id;
  }

  function GameMatches(query: string): Entry -> bool {
    (p: Entry) => Text.Includes(Text.ToLower(p.game), Text.ToLower(query))
  }

  /** `getProductsByGame`: in catalogue order, the entries whose game
      contains the query, ignoring case. */
  function GetProductsByGame(query: string): (r: seq<Entry>)
    ensures forall i :: 0 <= i < |r| ==> r[i] in Products && Text.Includes(Text.ToLower(r[i].game), Text.ToLower(query))
    ensures forall i :: 0 <= i < |Products| && Text.Includes(Text.ToLower(Products[i].game), Text.ToLower(query)) ==>
      Products[i] in r
  {
    Rows.Filter(Products, GameMatches(query))
  }

  /** Every string contains the empty string, so an empty query lists the
      whole catalogue. */
  lemma EmptyQueryListsAll()
    ensures GetProductsByGame("") == Products
  {
    forall i | 0 <= i < |Products| ensures GameMatches("")(Products[i]) {
      assert Text.OccursAt(Text.ToLower(Products[i].game), "", 0);
    }
  }

  /** Lower-casing an upper-cased ASCII string is lower-casing it. */
  lemma LowerOfUpper(s: string)
    ensures Text.ToLower(Text.ToUpper(s)) == Text.ToLower(s)
  {
  }

  /** The game filter ignores the case of the query. */
  lemma QueryCaseIgnored(query: string)
    ensures GetProductsByGame(Text.ToUpper(query)) == GetProductsByGame(query)
  {
    LowerOfUpper(query);
    Rows.FilterAgree(Products, GameMatches(Text.ToUpper(query)), GameMatches(query));
  }
}
