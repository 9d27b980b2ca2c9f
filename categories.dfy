/** lib/db/categories.ts: the `categories` table (listing, slugs, creation
    at the end of the order, reordering) and the distinct game names of the
    products. */
module Categories {
  import opened Wrappers
  import Rows
  import Text

  type Id = nat

  datatype Category = Category(id: Id, name: string, slug: string, sortOrder: int, active: bool)

  function CategoryId(c: Category): nat { c.id }

  // ---------------------------------------------------------------------
  // Slugs

  /** The characters a slug keeps: `[a-z0-9-]`. */
  predicate SlugChar(c: char) {
    'a' <= c <= 'z' || '0' <= c <= '9' || c == '-'
  }

  predicate AllSlugChars(s: string) {
    forall i :: 0 <= i < |s| ==> SlugChar(s[i])
  }

  /** `.replace(/\s+/g, "-")`: every whitespace run becomes one "-". The
      last character of a run is the one replaced; the others are dropped. */
  function DashSpaces(s: string): string {
    if s == [] then [] else DashHead(s[0], s[1..]) + DashSpaces(s[1..])
  }

  /** No whitespace is left. */
  lemma {:induction false} DashNoSpace(s: string)
    ensures forall i :: 0 <= i < |DashSpaces(s)| ==> !Text.IsSpace(DashSpaces(s)[i])
  {
    if s != [] {
      DashNoSpace(s[1..]);
      var h, r := DashHead(s[0], s[1..]), DashSpaces(s[1..]);
      assert forall i :: 0 <= i < |h| ==> !Text.IsSpace(h[i]);
      assert forall i :: |h| <= i < |h + r| ==> (h + r)[i] == r[i - |h|];
    }
  }

  /** Text without whitespace is unchanged. */
  lemma {:induction false} DashKeepsPlain(s: string)
    requires forall i :: 0 <= i < |s| ==> !Text.IsSpace(s[i])
    ensures DashSpaces(s) == s
  {
    if s != [] {
      assert forall i :: 0 <= i < |s[1..]| ==> s[1..][i] == s[i + 1];
      DashKeepsPlain(s[1..]);
      assert s == [s[0]] + s[1..];
    }
  }

  /** What the first character `c` of `[c] + rest` turns into. */
  function DashHead(c: char, rest: string): string {
    if !Text.IsSpace(c) then [c]
    else if rest != [] && Text.IsSpace(rest[0]) then []
    else "-"
  }

  /** `.replace(/[^a-z0-9-]/g, "")`. */
  function KeepSlugChars(s: string): (r: string)
    ensures AllSlugChars(r)
    ensures AllSlugChars(s) ==> r == s
  {
    if s == [] then []
    else if SlugChar(s[0]) then [s[0]] + KeepSlugChars(s[1..])
    else KeepSlugChars(s[1..])
  }

  /** Dropping characters is done character by character: what survives of
      two strings put together is what survives of each. */
  lemma {:induction false} KeepSlugCharsAppend(a: string, b: string)
    ensures KeepSlugChars(a + b) == KeepSlugChars(a) + KeepSlugChars(b)
  {
    if a != [] {
      assert (a + b)[0] == a[0] && (a + b)[1..] == a[1..] + b;
      KeepSlugCharsAppend(a[1..], b);
    } else {
      assert a + b == b;
    }
  }

  /** A single character survives exactly when it is a slug character. */
  lemma KeepSlugChar(c: char)
    ensures KeepSlugChars([c]) == if SlugChar(c) then [c] else []
  {
    assert [c][1..] == [];
  }

  /** A whitespace run between two pieces that do not touch it with more
      whitespace becomes one "-", and each piece is dashed on its own. */
  lemma {:induction false} DashSplit(a: string, w: string, b: string)
    requires w != [] && Text.AllSpace(w)
    requires a != [] ==> !Text.IsSpace(a[|a| - 1])
    requires b != [] ==> !Text.IsSpace(b[0])
    ensures DashSpaces(a + w + b) == DashSpaces(a) + "-" + DashSpaces(b)
  {
    if a == [] {
      assert a + w + b == w + b;
      DashRunFirst(w, b);
    } else {
      var t := a[1..];
      DashSplit(t, w, b);
      assert a == [a[0]] + t;
      Text.Regroup([a[0]], t, w, b);
      DashConsSplit(a[0], t, t + w + b, DashSpaces(b));
    }
  }

  /** The step of `DashSplit`: one more character in front of the first
      piece, where `u` is that piece followed by the rest. */
  lemma DashConsSplit(c: char, t: string, u: string, y: string)
    requires u != [] && (t != [] ==> u[0] == t[0]) && (t == [] ==> !Text.IsSpace(c))
    requires DashSpaces(u) == DashSpaces(t) + "-" + y
    ensures DashSpaces([c] + u) == DashSpaces([c] + t) + "-" + y
  {
    var h, x := DashHead(c, t), DashSpaces(t);
    calc {
      DashSpaces([c] + u);
      { DashCons(c, u); }
      DashHead(c, u) + DashSpaces(u);
      { assert DashHead(c, u) == h; }
      h + (x + "-" + y);
      { Text.Regroup(h, x, "-", y); }
      (h + x) + "-" + y;
      { DashCons(c, t); }
      DashSpaces([c] + t) + "-" + y;
    }
  }

  /** The first character is dashed by itself, in front of the rest. */
  lemma DashCons(c: char, u: string)
    ensures DashSpaces([c] + u) == DashHead(c, u) + DashSpaces(u)
  {
    assert ([c] + u)[0] == c && ([c] + u)[1..] == u;
  }

  /** A leading whitespace run becomes one "-". */
  lemma {:induction false} DashRunFirst(w: string, b: string)
    requires w != [] && Text.AllSpace(w)
    requires b != [] ==> !Text.IsSpace(b[0])
    ensures DashSpaces(w + b) == "-" + DashSpaces(b)
  {
    var s := w + b;
    assert s[0] == w[0] && s[1..] == w[1..] + b;
    if |w| == 1 {
      assert s[1..] == b;
    } else {
      assert s[1..][0] == w[1];
      DashRunFirst(w[1..], b);
    }
  }

  lemma SlugExample()
    ensures Slug("CS 2!") == "cs-2"
  {
    LowerExample();
    DashExample();
    KeepExample();
  }

  lemma LowerExample()
    ensures Text.ToLower("CS 2!") == "cs 2!"
  {
    var low := Text.ToLower("CS 2!");
    assert low[0] == 'c' && low[1] == 's' && low[2] == ' ' && low[3] == '2' && low[4] == '!';
  }

  lemma KeepExample()
    ensures KeepSlugChars("cs-2!") == "cs-2"
  {
    assert KeepSlugChars("!") == "";
    assert KeepSlugChars("2!") == "2";
    assert KeepSlugChars("-2!") == "-2";
    assert KeepSlugChars("s-2!") == "s-2";
  }

  lemma DashExample()
    ensures DashSpaces("cs 2!") == "cs-2!"
  {
    DashKeepsPlain("cs");
    DashKeepsPlain("2!");
    DashSplit("cs", " ", "2!");
    assert "cs" + " " + "2!" == "cs 2!";
  }

  /** The slug `createCategory` derives from a name: lower-cased, each
      whitespace run turned into "-", and then everything outside
      `[a-z0-9-]` dropped. */
  function Slug(name: string): (s: string)
    ensures AllSlugChars(s)
  {
    KeepSlugChars(DashSpaces(Text.ToLower(name)))
  }

  /** A string already made of slug characters is its own slug. */
  lemma SlugOfSlug(s: string)
    requires AllSlugChars(s)
    ensures Slug(s) == s
  {
    assert Text.ToLower(s) == s;
    assert forall i :: 0 <= i < |s| ==> !Text.IsSpace(s[i]);
    DashKeepsPlain(s);
  }

  /** Deriving a slug twice gives the same slug. */
  lemma SlugIdempotent(name: string)
    ensures Slug(Slug(name)) == Slug(name)
  {
    SlugOfSlug(Slug(name));
  }

  // ---------------------------------------------------------------------
  // Unique games

  /** `[...new Set(games.filter(Boolean))]`: the non-empty game names,
      each once, in the order of their first occurrence; `None` stands for
      a null game. */
  function UniqueGames(games: seq<Option<string>>): (r: seq<string>)
    ensures forall i, j :: 0 <= i < j < |r| ==> r[i] != r[j]
    ensures forall x :: x in r <==> x != "" && Some(x) in games
  {
    if games == [] then []
    else
      var r := UniqueGames(games[..|games| - 1]);
      var g := games[|games| - 1];
      assert games == games[..|games| - 1] + [g];
      if g.None? || g.value == "" || g.value in r then r else r + [g.value]
  }

  /** Later rows only add names at the end: the names of any first part of
      the rows come first, in the same order. */
  lemma {:induction false} UniqueGamesPrefix(games: seq<Option<string>>, k: nat)
    requires k <= |games|
    ensures UniqueGames(games[..k]) <= UniqueGames(games)
    decreases |games|
  {
    if k < |games| {
      var init := games[..|games| - 1];
      assert games[..k] == init[..k];
      UniqueGamesPrefix(init, k);
    } else {
      assert games[..k] == games;
    }
  }

  /** Strings in code-unit order, a proper prefix first: the order
      `.order("game")` is taken to sort by. */
  predicate LexLe(a: string, b: string) {
    a == [] || (b != [] && (a[0] < b[0] || (a[0] == b[0] && LexLe(a[1..], b[1..]))))
  }

  lemma {:induction false} LexTotal(a: string, b: string)
    ensures LexLe(a, b) || LexLe(b, a)
  {
    if a != [] && b != [] && a[0] == b[0] {
      LexTotal(a[1..], b[1..]);
    }
  }

  lemma {:induction false} LexTrans(a: string, b: string, c: string)
    requires LexLe(a, b) && LexLe(b, c)
    ensures LexLe(a, c)
  {
    if a != [] && a[0] == b[0] && b[0] == c[0] {
      LexTrans(a[1..], b[1..], c[1..]);
    }
  }

  predicate Ascending(s: seq<string>) {
    forall i, j :: 0 <= i < j < |s| ==> LexLe(s[i], s[j])
  }

  /** `.order("game")`: ascending names, and a null game after all of them,
      as PostgreSQL sorts nulls in an ascending order. */
  function ByGame(): (Option<string>, Option<string>) -> bool {
    (a: Option<string>, b: Option<string>) => b.None? || (a.Some? && LexLe(a.value, b.value))
  }

  lemma ByGameTotal()
    ensures Rows.TotalOrder(ByGame())
  {
    forall a: Option<string>, b: Option<string> ensures ByGame()(a, b) || ByGame()(b, a) {
      if a.Some? && b.Some? {
        LexTotal(a.value, b.value);
      }
    }
    forall a: Option<string>, b: Option<string>, c: Option<string> | ByGame()(a, b) && ByGame()(b, c)
      ensures ByGame()(a, c)
    {
      if c.Some? {
        LexTrans(a.value, b.value, c.value);
      }
    }
  }

  /** The game column of the products as `.order("game")` returns it. */
  function SortByGame(games: seq<Option<string>>): (r: seq<Option<string>>)
    ensures Rows.SortedBy(r, ByGame())
    ensures multiset(r) == multiset(games)
    ensures forall g :: g in r <==> g in games
  {
    ByGameTotal();
    var r := Rows.SortBy(games, ByGame());
    assert forall g :: g in r <==> g in multiset(r);
    assert forall g :: g in games <==> g in multiset(games);
    r
  }

  /** `getUniqueGamesFromProducts`: the distinct non-empty game names of the
      products, in ascending order; none when the query fails. */
  function GetUniqueGamesFromProducts(games: seq<Option<string>>, fault: bool): (r: seq<string>)
    ensures fault ==> r == []
    ensures !fault ==> forall x :: x in r <==> x != "" && Some(x) in games
    ensures forall i, j :: 0 <= i < j < |r| ==> r[i] != r[j]
    ensures Ascending(r)
  {
    if fault then []
    else
      var sorted := SortByGame(games);
      UniqueGamesAscending(sorted);
      UniqueGames(sorted)
  }

  /** The distinct names of rows sorted by `ByGame` come out ascending. */
  lemma {:induction false} UniqueGamesAscending(games: seq<Option<string>>)
    requires Rows.SortedBy(games, ByGame())
    ensures Ascending(UniqueGames(games))
  {
    if games != [] {
      var init := games[..|games| - 1];
      var g := games[|games| - 1];
      var r := UniqueGames(init);
      assert Rows.SortedBy(init, ByGame()) by {
        assert forall i :: 0 <= i < |init| ==> init[i] == games[i];
      }
      UniqueGamesAscending(init);
      if g.Some? && g.value != "" && g.value !in r {
        forall i | 0 <= i < |r| ensures LexLe(r[i], g.value) {
          assert Some(r[i]) in init;
          var k :| 0 <= k < |init| && init[k] == Some(r[i]);
          assert ByGame()(games[k], games[|games| - 1]);
        }
        var r' := r + [g.value];
        assert UniqueGames(games) == r';
        forall i, j | 0 <= i < j < |r'| ensures LexLe(r'[i], r'[j]) {
          assert r'[i] == r[i];
          if j < |r| {
            assert r'[j] == r[j];
          } else {
            assert r'[j] == g.value;
          }
        }
      } else {
        assert UniqueGames(games) == r;
      }
    }
  }

  // ---------------------------------------------------------------------
  // Listing

  predicate SortedByOrder(s: seq<Category>) {
    forall i, j :: 0 <= i < j < |s| ==> s[i].sortOrder <= s[j].sortOrder
  }

  /** `.order("sort_order")`: ascending `sort_order`, which compares any
      two categories, transitively. */
  function ByOrder(): (Category, Category) -> bool {
    (a: Category, b: Category) => a.sortOrder <= b.sortOrder
  }

  lemma ByOrderTotal()
    ensures Rows.TotalOrder(ByOrder())
  {
  }

  function IsActive(): Category -> bool {
    (c: Category) => c.active
  }

  /** `getAllCategories`: the active categories, ordered by `sort_order`;
      none when the query fails. */
  function GetAllCategories(rows: seq<Category>, fault: bool): (r: seq<Category>)
    ensures SortedByOrder(r)
    ensures fault ==> r == []
    ensures !fault ==> multiset(r) == multiset(Rows.Filter(rows, IsActive()))
    ensures forall i :: 0 <= i < |r| ==> r[i].active && r[i] in rows
    ensures !fault ==> forall i :: 0 <= i < |rows| && rows[i].active ==> rows[i] in r
  {
    if fault then []
    else
      var f := Rows.Filter(rows, IsActive());
      ByOrderTotal();
      var r := Rows.SortBy(f, ByOrder());
      ActiveFrom(rows, r);
      ActiveKept(rows, r);
      r
  }

  /** A permutation of the active rows holds only active rows. */
  lemma ActiveFrom(rows: seq<Category>, r: seq<Category>)
    requires multiset(r) == multiset(Rows.Filter(rows, IsActive()))
    ensures forall i :: 0 <= i < |r| ==> r[i].active && r[i] in rows
  {
    var f := Rows.Filter(rows, IsActive());
    forall i | 0 <= i < |r| ensures r[i].active && r[i] in rows {
      assert r[i] in multiset(f);
      var k :| 0 <= k < |f| && f[k] == r[i];
      assert IsActive()(f[k]);
    }
  }

  /** A permutation of the active rows holds every active row. */
  lemma ActiveKept(rows: seq<Category>, r: seq<Category>)
    requires multiset(r) == multiset(Rows.Filter(rows, IsActive()))
    ensures forall i :: 0 <= i < |rows| && rows[i].active ==> rows[i] in r
  {
    var f := Rows.Filter(rows, IsActive());
    forall i | 0 <= i < |rows| && rows[i].active ensures rows[i] in r {
      assert IsActive()(rows[i]);
      assert rows[i] in f;
      assert rows[i] in multiset(r);
    }
  }

  /** The highest `sort_order` of the table, if it has rows. */
  function MaxSortOrder(rows: seq<Category>): (m: Option<int>)
    ensures m.None? <==> rows == []
    ensures m.Some? ==> forall i :: 0 <= i < |rows| ==> rows[i].sortOrder <= m.value
    ensures m.Some? ==> exists i :: 0 <= i < |rows| && rows[i].sortOrder == m.value
  {
    if rows == [] then None
    else
      var rest := MaxSortOrder(rows[1..]);
      if rest.None? || rows[0].sortOrder >= rest.value then Some(rows[0].sortOrder)
      else
        assert forall i :: 1 <= i < |rows| ==> rows[i] == rows[1..][i - 1];
        rest
  }

  /** `(maxOrder?.sort_order || 0) + 1`: one past the highest order, and 1
      for an empty table or a failed query. */
  function NextSortOrder(rows: seq<Category>, fault: bool): (n: int)
    ensures fault || rows == [] ==> n == 1
    ensures !fault ==> forall i :: 0 <= i < |rows| ==> rows[i].sortOrder < n
    ensures !fault && rows != [] ==> exists i :: 0 <= i < |rows| && rows[i].sortOrder == n - 1
  {
    var m := if fault then None else MaxSortOrder(rows);
    (if m.None? || m.value == 0 then 0 else m.value) + 1
  }

  function CategoryIs(id: Id): Category -> bool {
    (c: Category) => c.id == id
  }

  function SetOrder(n: int): Category -> Category {
    (c: Category) => c.(sortOrder := n)
  }

  /** Whether the update for position `k` reports an error. */
  predicate Failed(faults: seq<bool>, k: nat) {
    k < |faults| && faults[k]
  }

  /** The table after the updates for the first `|ids|` positions: each
      that succeeds gives the category with that id its position as
      `sort_order`. */
  function Reordered(rows: seq<Category>, ids: seq<Id>, faults: seq<bool>): (r: seq<Category>)
    ensures |r| == |rows|
    decreases |ids|
  {
    if ids == [] then rows
    else
      var n := |ids| - 1;
      var prev := Reordered(rows, ids[..n], faults);
      if Failed(faults, n) then prev else Rows.UpdateWhere(prev, CategoryIs(ids[n]), SetOrder(n))
  }

  /** With distinct ids and no failed update, the category at position `k`
      of the list gets `sort_order` k, and a category not in the list keeps
      its row. */
  lemma {:induction false} ReorderPlaces(rows: seq<Category>, ids: seq<Id>, faults: seq<bool>, j: nat)
    requires j < |rows|
    requires forall a, b :: 0 <= a < b < |ids| ==> ids[a] != ids[b]
    requires forall k :: 0 <= k < |ids| ==> !Failed(faults, k)
    ensures forall k :: 0 <= k < |ids| && ids[k] == rows[j].id ==>
      Reordered(rows, ids, faults)[j] == rows[j].(sortOrder := k)
    ensures rows[j].id !in ids ==> Reordered(rows, ids, faults)[j] == rows[j]
    decreases |ids|
  {
    if ids != [] {
      var n := |ids| - 1;
      var init := ids[..n];
      ReorderPlaces(rows, init, faults, j);
      assert forall k :: 0 <= k < n ==> init[k] == ids[k];
      assert rows[j].id !in ids ==> rows[j].id !in init;
    }
  }

  /** The `categories` table. */
  class Table {
    var rows: seq<Category>
    var nextId: Id

    predicate Valid()
      reads this
    {
      Rows.Keyed(rows, CategoryId, nextId)
    }

    constructor ()
      ensures Valid() && rows == []
    {
      rows := [];
      nextId := 0;
    }

    /** `createCategory`: a new active category with the slug of its name,
        ordered after every existing one; `null` and no change on a store
        error. */
    method CreateCategory(name: string, maxFault: bool, insertFault: bool) returns (r: Option<Category>)
      requires Valid()
      modifies this
      ensures Valid()
      ensures insertFault ==> r.None? && rows == old(rows) && nextId == old(nextId)
      ensures !insertFault ==>
        && r == Some(Category(old(nextId), name, Slug(name), NextSortOrder(old(rows), maxFault), true))
        && rows == old(rows) + [r.value]
        && nextId == old(nextId) + 1
      ensures r.Some? && !maxFault ==> forall i :: 0 <= i < |old(rows)| ==> old(rows)[i].sortOrder < r.value.sortOrder
      ensures r.Some? && !maxFault && old(rows) != [] ==>
        exists i :: 0 <= i < |old(rows)| && old(rows)[i].sortOrder == r.value.sortOrder - 1
      ensures r.Some? && (maxFault || old(rows) == []) ==> r.value.sortOrder == 1
    {
      var next := NextSortOrder(rows, maxFault);
      if insertFault {
        return None;
      }
      var c := Category(nextId, name, Slug(name), next, true);
      Rows.AppendFresh(rows, CategoryId, nextId, c);
      rows := rows + [c];
      nextId := nextId + 1;
      r := Some(c);
    }

    /** `reorderCategories`: one `sort_order` update per position of the
        list; false when any of them reports an error. */
    method ReorderCategories(ids: seq<Id>, faults: seq<bool>) returns (ok: bool)
      requires Valid()
      modifies this
      ensures Valid()
      ensures ok <==> forall k :: 0 <= k < |ids| ==> !Failed(faults, k)
      ensures rows == Reordered(old(rows), ids, faults) && nextId == old(nextId)
    {
      var hasError := false;
      for i := 0 to |ids|
        invariant Valid() && nextId == old(nextId)
        invariant rows == Reordered(old(rows), ids[..i], faults)
        invariant hasError <==> exists k :: 0 <= k < i && Failed(faults, k)
      {
        assert ids[..i + 1][..i] == ids[..i];
        if Failed(faults, i) {
          hasError := true;
        } else {
          Rows.UpdateKeyed(rows, CategoryId, nextId, CategoryIs(ids[i]), SetOrder(i));
          rows := Rows.UpdateWhere(rows, CategoryIs(ids[i]), SetOrder(i));
        }
      }
      assert ids[..|ids|] == ids;
      ok := !hasError;
    }
  }
}
