/** Queries over a table held as a sequence of rows: the `.eq(...)` filter,
    PostgREST's `.single()` (exactly one matching row, otherwise an error that
    the callers turn into `null`), and `.limit(1).single()`. */
module Rows {
  import opened Wrappers

  /** The rows satisfying `p`, in table order. */
  function Filter<T>(s: seq<T>, p: T -> bool): (r: seq<T>)
    ensures |r| <= |s|
    ensures forall i :: 0 <= i < |r| ==> r[i] in s && p(r[i])
    ensures forall i :: 0 <= i < |s| && p(s[i]) ==> s[i] in r
    ensures (forall i :: 0 <= i < |s| ==> p(s[i])) ==> r == s
    ensures (forall i :: 0 <= i < |s| ==> !p(s[i])) ==> r == []
  {
    if s == [] then []
    else
      var rest := Filter(s[1..], p);
      assert s == [s[0]] + s[1..];
      assert forall i :: 1 <= i < |s| ==> s[i] == s[1..][i - 1];
      if p(s[0]) then [s[0]] + rest else rest
  }

  lemma {:induction false} FilterAppend<T>(s: seq<T>, t: seq<T>, p: T -> bool)
    ensures Filter(s + t, p) == Filter(s, p) + Filter(t, p)
  {
    if s == [] {
      assert s + t == t;
    } else {
      assert (s + t)[1..] == s[1..] + t;
      FilterAppend(s[1..], t, p);
    }
  }

  /** Filters that agree on every row select the same rows. */
  lemma {:induction false} FilterAgree<T>(s: seq<T>, p: T -> bool, q: T -> bool)
    requires forall i :: 0 <= i < |s| ==> p(s[i]) == q(s[i])
    ensures Filter(s, p) == Filter(s, q)
  {
    if s != [] {
      FilterAgree(s[1..], p, q);
    }
  }

  /** `.select().filter(p).single()`: the row when exactly one row matches. */
  function Single<T>(s: seq<T>, p: T -> bool): (r: Option<T>)
    ensures r.Some? <==> |Filter(s, p)| == 1
    ensures r.Some? ==> r.value in s && p(r.value)
  {
    var m := Filter(s, p);
    if |m| == 1 then Some(m[0]) else None
  }

  /** `.filter(p).limit(1).single()`: the first matching row, if any. */
  function First<T>(s: seq<T>, p: T -> bool): (r: Option<T>)
    ensures r.Some? <==> exists i :: 0 <= i < |s| && p(s[i])
    ensures r.Some? ==> r.value in s && p(r.value)
  {
    var m := Filter(s, p);
    if |m| >= 1 then Some(m[0]) else None
  }

  /** The number of rows satisfying `p` (a `count: "exact"` query). */
  function Count<T>(s: seq<T>, p: T -> bool): (n: nat)
    ensures n <= |s|
  {
    |Filter(s, p)|
  }

  /** When `q` holds wherever `p` holds, fewer rows satisfy `p`. */
  lemma {:induction false} CountMonotone<T>(s: seq<T>, p: T -> bool, q: T -> bool)
    requires forall i :: 0 <= i < |s| && p(s[i]) ==> q(s[i])
    ensures Count(s, p) <= Count(s, q)
  {
    if s != [] {
      CountMonotone(s[1..], p, q);
    }
  }

  /** Rows satisfying one of two exclusive conditions are counted once each. */
  lemma {:induction false} CountDisjoint<T>(s: seq<T>, p: T -> bool, q: T -> bool, pq: T -> bool)
    requires forall i :: 0 <= i < |s| ==> !(p(s[i]) && q(s[i]))
    requires forall i :: 0 <= i < |s| ==> pq(s[i]) == (p(s[i]) || q(s[i]))
    ensures Count(s, pq) == Count(s, p) + Count(s, q)
  {
    if s != [] {
      CountDisjoint(s[1..], p, q, pq);
    }
  }

  /** `.update(f).filter(p)`: every row satisfying `p` is rewritten by `f`,
      the others stay as they are, in place. */
  function UpdateWhere<T>(s: seq<T>, p: T -> bool, f: T -> T): (r: seq<T>)
    ensures |r| == |s|
    ensures forall i :: 0 <= i < |s| ==> r[i] == if p(s[i]) then f(s[i]) else s[i]
  {
    seq(|s|, i requires 0 <= i < |s| => if p(s[i]) then f(s[i]) else s[i])
  }

  /** `.delete().filter(p)`: the rows not satisfying `p`, in order. */
  function DeleteWhere<T>(s: seq<T>, p: T -> bool): (r: seq<T>)
    ensures |r| <= |s|
    ensures forall i :: 0 <= i < |r| ==> r[i] in s && !p(r[i])
    ensures forall i :: 0 <= i < |s| && !p(s[i]) ==> s[i] in r
  {
    Filter(s, Not(p))
  }

  function Not<T>(p: T -> bool): T -> bool {
    x => !p(x)
  }

  /** A delete that matches no row changes nothing. */
  lemma DeleteNone<T>(s: seq<T>, p: T -> bool)
    requires forall i :: 0 <= i < |s| ==> !p(s[i])
    ensures DeleteWhere(s, p) == s
  {
  }

  /** Deleting the row just appended, when no earlier row matches, gives
      back the table before the append. */
  lemma DeleteLast<T>(s: seq<T>, x: T, p: T -> bool)
    requires forall i :: 0 <= i < |s| ==> !p(s[i])
    requires p(x)
    ensures DeleteWhere(s + [x], p) == s
  {
    FilterAppend(s, [x], Not(p));
    assert Filter([x], Not(p)) == [];
  }

  /** Updating the row just appended, when no earlier row matches, rewrites
      that row only. */
  lemma UpdateLast<T>(s: seq<T>, x: T, p: T -> bool, f: T -> T)
    requires forall i :: 0 <= i < |s| ==> !p(s[i])
    requires p(x)
    ensures UpdateWhere(s + [x], p, f) == s + [f(x)]
  {
    var r := UpdateWhere(s + [x], p, f);
    assert forall i :: 0 <= i < |s| ==> r[i] == (s + [f(x)])[i];
  }

  /** Every row's id is below `bound`: an id issued from `bound` on is
      fresh. */
  predicate IdsBelow<T>(s: seq<T>, id: T -> nat, bound: nat) {
    forall i :: 0 <= i < |s| ==> id(s[i]) < bound
  }

  /** No two rows share an id (the primary key). */
  predicate IdsDistinct<T>(s: seq<T>, id: T -> nat) {
    forall i, j :: 0 <= i < j < |s| ==> id(s[i]) != id(s[j])
  }

  predicate Keyed<T>(s: seq<T>, id: T -> nat, bound: nat) {
    IdsBelow(s, id, bound) && IdsDistinct(s, id)
  }

  /** Inserting a row with the next fresh id keeps the ids a primary key. */
  lemma AppendFresh<T>(s: seq<T>, id: T -> nat, bound: nat, x: T)
    requires Keyed(s, id, bound) && id(x) == bound
    ensures Keyed(s + [x], id, bound + 1)
  {
  }

  /** Inserting a batch of rows with consecutive fresh ids keeps the ids a
      primary key. */
  lemma AppendFreshBatch<T>(s: seq<T>, id: T -> nat, bound: nat, t: seq<T>)
    requires Keyed(s, id, bound)
    requires forall i :: 0 <= i < |t| ==> id(t[i]) == bound + i
    ensures Keyed(s + t, id, bound + |t|)
  {
    var r := s + t;
    forall a, b | 0 <= a < b < |r| ensures id(r[a]) != id(r[b]) {
      if b >= |s| {
        assert r[b] == t[b - |s|];
        if a >= |s| { assert r[a] == t[a - |s|]; } else { assert r[a] == s[a]; }
      } else {
        assert r[a] == s[a] && r[b] == s[b];
      }
    }
    forall a | 0 <= a < |r| ensures id(r[a]) < bound + |t| {
      if a >= |s| { assert r[a] == t[a - |s|]; } else { assert r[a] == s[a]; }
    }
  }

  /** A fresh id raises the bound without touching the rows. */
  lemma RaiseBound<T>(s: seq<T>, id: T -> nat, bound: nat, bound': nat)
    requires Keyed(s, id, bound) && bound <= bound'
    ensures Keyed(s, id, bound')
  {
  }

  /** An update that does not rewrite ids keeps them a primary key. */
  lemma UpdateKeyed<T>(s: seq<T>, id: T -> nat, bound: nat, p: T -> bool, f: T -> T)
    requires Keyed(s, id, bound)
    requires forall i :: 0 <= i < |s| ==> id(f(s[i])) == id(s[i])
    ensures Keyed(UpdateWhere(s, p, f), id, bound)
  {
  }

  /** Deleting rows keeps the remaining ids a primary key. */
  lemma FilterKeyed<T>(s: seq<T>, id: T -> nat, bound: nat, p: T -> bool)
    requires Keyed(s, id, bound)
    ensures Keyed(Filter(s, p), id, bound)
  {
    FilterDistinct(s, id, p);
  }

  lemma {:induction false} FilterDistinct<T>(s: seq<T>, id: T -> nat, p: T -> bool)
    requires IdsDistinct(s, id)
    ensures IdsDistinct(Filter(s, p), id)
  {
    if s != [] {
      var tail := s[1..];
      assert forall i :: 0 <= i < |tail| ==> tail[i] == s[i + 1];
      FilterDistinct(tail, id, p);
      if p(s[0]) {
        var t := Filter(tail, p);
        HeadIdFresh(s, id, t, p);
        ConsDistinct(s[0], t, id);
      }
    }
  }

  lemma HeadIdFresh<T>(s: seq<T>, id: T -> nat, t: seq<T>, p: T -> bool)
    requires s != [] && IdsDistinct(s, id) && t == Filter(s[1..], p)
    ensures forall i :: 0 <= i < |t| ==> id(t[i]) != id(s[0])
  {
    forall i | 0 <= i < |t| ensures id(t[i]) != id(s[0]) {
      var k :| 0 <= k < |s[1..]| && s[1..][k] == t[i];
      assert s[k + 1] == t[i];
    }
  }

  lemma ConsDistinct<T>(x: T, t: seq<T>, id: T -> nat)
    requires IdsDistinct(t, id)
    requires forall i :: 0 <= i < |t| ==> id(t[i]) != id(x)
    ensures IdsDistinct([x] + t, id)
  {
    var r := [x] + t;
    forall a, b | 0 <= a < b < |r| ensures id(r[a]) != id(r[b]) {
      assert r[b] == t[b - 1];
      if a > 0 { assert r[a] == t[a - 1]; }
    }
  }

  /** With a primary key, at most one row carries a given id, so a lookup
      by id with `.single()` finds what `.limit(1)` finds. */
  lemma {:induction false} SingleById<T>(s: seq<T>, id: T -> nat, bound: nat, p: T -> bool, k: nat)
    requires Keyed(s, id, bound)
    requires forall i :: 0 <= i < |s| ==> (p(s[i]) <==> id(s[i]) == k)
    ensures |Filter(s, p)| <= 1
    ensures Single(s, p) == First(s, p)
  {
    if s != [] {
      var tail := s[1..];
      assert forall i :: 0 <= i < |tail| ==> tail[i] == s[i + 1];
      SingleById(tail, id, bound, p, k);
      if p(s[0]) {
        assert forall i :: 0 <= i < |tail| ==> !p(tail[i]);
        assert Filter(tail, p) == [];
      }
    }
  }

  /** Updating a row put in front of others. */
  lemma UpdateCons<T>(x: T, t: seq<T>, p: T -> bool, f: T -> T)
    ensures UpdateWhere([x] + t, p, f) == [if p(x) then f(x) else x] + UpdateWhere(t, p, f)
  {
    var l := UpdateWhere([x] + t, p, f);
    var r := [if p(x) then f(x) else x] + UpdateWhere(t, p, f);
    assert |l| == |r|;
    forall i | 0 <= i < |l| ensures l[i] == r[i] {
      if i > 0 {
        assert ([x] + t)[i] == t[i - 1];
      }
    }
  }

  /** Filtering after an update is updating after filtering, when the
      update never changes whether a row passes the filter. */
  lemma {:induction false} FilterUpdate<T>(s: seq<T>, p: T -> bool, f: T -> T, q: T -> bool)
    requires forall x :: q(f(x)) == q(x)
    ensures Filter(UpdateWhere(s, p, f), q) == UpdateWhere(Filter(s, q), p, f)
  {
    if s != [] {
      var u := UpdateWhere(s, p, f);
      var x := if p(s[0]) then f(s[0]) else s[0];
      assert u[0] == x && q(x) == q(s[0]);
      assert u[1..] == UpdateWhere(s[1..], p, f);
      FilterUpdate(s[1..], p, f, q);
      var t := Filter(s[1..], q);
      if q(s[0]) {
        assert Filter(u, q) == [x] + Filter(u[1..], q);
        assert Filter(s, q) == [s[0]] + t;
        UpdateCons(s[0], t, p, f);
      } else {
        assert Filter(u, q) == Filter(u[1..], q);
        assert Filter(s, q) == t;
      }
    }
  }

  // ---------------------------------------------------------------------
  // `.order(column)`

  /** `le` compares any two rows, transitively. */
  ghost predicate TotalOrder<T(!new)>(le: (T, T) -> bool) {
    && (forall x, y :: le(x, y) || le(y, x))
    && (forall x, y, z :: le(x, y) && le(y, z) ==> le(x, z))
  }

  /** Every row may come before every later one. */
  predicate SortedBy<T>(s: seq<T>, le: (T, T) -> bool) {
    forall i, j :: 0 <= i < j < |s| ==> le(s[i], s[j])
  }

  /** A row that may come before the head of an ordered list heads it in
      order. */
  lemma ConsSorted<T(!new)>(x: T, r: seq<T>, le: (T, T) -> bool)
    requires TotalOrder(le) && SortedBy(r, le) && (r == [] || le(x, r[0]))
    ensures SortedBy([x] + r, le)
  {
    var s := [x] + r;
    forall i, j | 0 <= i < j < |s| ensures le(s[i], s[j]) {
      assert s[j] == r[j - 1];
      if i > 0 {
        assert s[i] == r[i - 1];
      } else if j > 1 {
        assert le(r[0], r[j - 1]);
      }
    }
  }

  /** A row that may come before `c` and every row of `t` may come before
      every row of a permutation of both. */
  lemma BoundsPermutation<T(!new)>(b: T, r: seq<T>, c: T, t: seq<T>, le: (T, T) -> bool)
    requires multiset(r) == multiset(t) + multiset{c}
    requires le(b, c) && forall k :: 0 <= k < |t| ==> le(b, t[k])
    ensures forall i :: 0 <= i < |r| ==> le(b, r[i])
  {
    forall i | 0 <= i < |r| ensures le(b, r[i]) {
      assert r[i] in multiset(r);
      if r[i] != c {
        assert r[i] in multiset(t);
        var k :| 0 <= k < |t| && t[k] == r[i];
      }
    }
  }

  /** Inserting into an ordered list keeps it ordered and adds exactly the
      one row. */
  function InsertBy<T(!new)>(x: T, s: seq<T>, le: (T, T) -> bool): (r: seq<T>)
    requires TotalOrder(le) && SortedBy(s, le)
    ensures SortedBy(r, le)
    ensures multiset(r) == multiset(s) + multiset{x}
    ensures |r| == |s| + 1
  {
    if s == [] || le(x, s[0]) then
      ConsSorted(x, s, le);
      [x] + s
    else
      var t := s[1..];
      var rest := InsertBy(x, t, le);
      assert s == [s[0]] + t;
      assert forall k :: 0 <= k < |t| ==> le(s[0], t[k]);
      BoundsPermutation(s[0], rest, x, t, le);
      ConsSorted(s[0], rest, le);
      assert multiset([s[0]] + rest) == multiset{s[0]} + multiset(rest);
      [s[0]] + rest
  }

  /** `.order(column)`: the same rows (a permutation), ordered. Rows that
      compare both ways keep their table order, an order the database does
      not promise. */
  function SortBy<T(!new)>(s: seq<T>, le: (T, T) -> bool): (r: seq<T>)
    requires TotalOrder(le)
    ensures SortedBy(r, le)
    ensures multiset(r) == multiset(s)
    ensures |r| == |s|
  {
    if s == [] then []
    else
      assert s == [s[0]] + s[1..];
      InsertBy(s[0], SortBy(s[1..], le), le)
  }

  /** A first part of a list holds no row more often than the list. */
  lemma TakeSubMultiset<T>(s: seq<T>, n: nat)
    requires n <= |s|
    ensures multiset(s[..n]) <= multiset(s)
  {
    assert s == s[..n] + s[n..];
  }
}
