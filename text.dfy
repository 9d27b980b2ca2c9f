/** The JavaScript string operations the source relies on: `trim`, the
    whitespace class `\s`, ASCII case mapping, `includes` and `join`. */
module Text {

  /** ECMAScript WhiteSpace and LineTerminator code points: what `trim()`
      removes and what the regular-expression class `\s` matches. */
  predicate IsSpace(c: char) {
    var n := c as int;
    n == 0x09 || n == 0x0A || n == 0x0B || n == 0x0C || n == 0x0D || n == 0x20
    || n == 0xA0 || n == 0x1680 || (0x2000 <= n <= 0x200A) || n == 0x2028
    || n == 0x2029 || n == 0x202F || n == 0x205F || n == 0x3000 || n == 0xFEFF
  }

  predicate AllSpace(s: string) {
    forall i :: 0 <= i < |s| ==> IsSpace(s[i])
  }

  /** The length of the whitespace run at the start of `s`. */
  function LeadingSpace(s: string): (n: nat)
    ensures n <= |s|
    ensures AllSpace(s[..n])
    ensures n < |s| ==> !IsSpace(s[n])
  {
    if s == [] || !IsSpace(s[0]) then 0
    else
      var m := LeadingSpace(s[1..]);
      assert forall i :: 1 <= i < m + 1 ==> s[i] == s[1..][..m][i - 1];
      1 + m
  }

  /** The length of the whitespace run at the end of `s`. */
  function TrailingSpace(s: string): (n: nat)
    ensures n <= |s|
    ensures AllSpace(s[|s| - n..])
    ensures n < |s| ==> !IsSpace(s[|s| - 1 - n])
  {
    if s == [] || !IsSpace(s[|s| - 1]) then 0
    else
      var t := s[..|s| - 1];
      var m := TrailingSpace(t);
      assert forall i :: |s| - 1 - m <= i < |s| - 1 ==> s[i] == t[|t| - m..][i - (|t| - m)];
      1 + m
  }

  /** `String.prototype.trim`: `s` is leading whitespace, then the result,
      then trailing whitespace, and the result neither starts nor ends with
      whitespace. */
  function Trim(s: string): (r: string)
    ensures LeadingSpace(s) + |r| <= |s|
    ensures r == s[LeadingSpace(s)..LeadingSpace(s) + |r|]
    ensures AllSpace(s[LeadingSpace(s) + |r|..])
    ensures r != [] ==> !IsSpace(r[0]) && !IsSpace(r[|r| - 1])
    ensures r == [] <==> AllSpace(s)
  {
    var a := LeadingSpace(s);
    var t := s[a..];
    var b := TrailingSpace(t);
    TrimPieces(s, a, t, b);
    t[..|t| - b]
  }

  lemma TrimPieces(s: string, a: nat, t: string, b: nat)
    requires a == LeadingSpace(s) && t == s[a..] && b == TrailingSpace(t)
    ensures t != [] ==> b < |t| && t[0] == s[a]
    ensures var r := t[..|t| - b];
      && |r| <= |s|
      && r == s[a..a + |r|]
      && AllSpace(s[a + |r|..])
      && (r != [] ==> !IsSpace(r[0]) && !IsSpace(r[|r| - 1]))
      && (r == [] <==> AllSpace(s))
  {
    if t == [] {
      assert s[..a] == s;
    } else {
      TrimNonEmpty(s, a, t, b);
    }
  }

  lemma TrimNonEmpty(s: string, a: nat, t: string, b: nat)
    requires a == LeadingSpace(s) && t == s[a..] && b == TrailingSpace(t) && t != []
    ensures b < |t| && t[0] == s[a]
    ensures var r := t[..|t| - b];
      && r != []
      && r == s[a..a + |r|]
      && AllSpace(s[a + |r|..])
      && !IsSpace(r[0]) && !IsSpace(r[|r| - 1])
      && !AllSpace(s)
  {
    TrimEnds(s, a, t, b);
    TrimSlices(s, a, t, b);
  }

  /** Cutting `b` characters off the end of `s[a..]` leaves a slice of `s`
      whose last character is the one before the cut. */
  lemma TrimSlices(s: string, a: nat, t: string, b: nat)
    requires a <= |s| && t == s[a..] && b < |t|
    ensures var r := t[..|t| - b];
      && r == s[a..a + |r|]
      && s[a + |r|..] == t[|t| - b..]
      && r[0] == t[0] && r[|r| - 1] == t[|t| - 1 - b]
  {
  }

  /** A string that is not all whitespace keeps its first and last
      non-whitespace characters. */
  lemma TrimEnds(s: string, a: nat, t: string, b: nat)
    requires a == LeadingSpace(s) && t == s[a..] && b == TrailingSpace(t) && t != []
    ensures b < |t| && t[0] == s[a]
    ensures !IsSpace(t[0]) && !IsSpace(t[|t| - 1 - b])
    ensures !AllSpace(s)
  {
    assert t[0] == s[a] && !IsSpace(t[0]);
    assert !AllSpace(t[0..]);
    assert b < |t|;
  }

  /** Concatenation regrouped: `a + b + c + d` is `a` followed by the rest. */
  lemma Regroup(a: string, b: string, c: string, d: string)
    ensures a + b + c + d == a + (b + c + d)
  {
  }

  /** Trimming twice trims nothing more. */
  lemma TrimIdempotent(s: string)
    ensures Trim(Trim(s)) == Trim(s)
  {
  }

  /** `texts.map(k => k.trim()).filter(k => k.length > 0)`. */
  function TrimmedNonEmpty(texts: seq<string>): (r: seq<string>)
    ensures |r| <= |texts|
    ensures forall i :: 0 <= i < |r| ==> r[i] != ""
  {
    if texts == [] then []
    else
      var t := Trim(texts[0]);
      if t != "" then [t] + TrimmedNonEmpty(texts[1..]) else TrimmedNonEmpty(texts[1..])
  }

  /** Every non-blank input is in the cleaned list, trimmed. */
  lemma {:induction false} TrimmedKeeps(texts: seq<string>, j: nat)
    requires j < |texts| && Trim(texts[j]) != ""
    ensures Trim(texts[j]) in TrimmedNonEmpty(texts)
  {
    var t := Trim(texts[0]);
    var rest := TrimmedNonEmpty(texts[1..]);
    if j == 0 {
      assert TrimmedNonEmpty(texts) == [t] + rest;
    } else {
      TrimmedKeeps(texts[1..], j - 1);
      assert texts[1..][j - 1] == texts[j];
      assert Trim(texts[j]) in rest;
      if t != "" {
        assert TrimmedNonEmpty(texts) == [t] + rest;
      } else {
        assert TrimmedNonEmpty(texts) == rest;
      }
    }
  }

  /** Every entry of the cleaned list is some input, trimmed. */
  lemma {:induction false} TrimmedFrom(texts: seq<string>, i: nat)
    requires i < |TrimmedNonEmpty(texts)|
    ensures exists j :: 0 <= j < |texts| && TrimmedNonEmpty(texts)[i] == Trim(texts[j])
  {
    var t := Trim(texts[0]);
    var rest := TrimmedNonEmpty(texts[1..]);
    if t != "" && i == 0 {
      assert TrimmedNonEmpty(texts)[0] == Trim(texts[0]);
    } else {
      var k := if t != "" then i - 1 else i;
      assert TrimmedNonEmpty(texts)[i] == rest[k];
      TrimmedFrom(texts[1..], k);
      var j :| 0 <= j < |texts[1..]| && rest[k] == Trim(texts[1..][j]);
      assert texts[1..][j] == texts[j + 1];
    }
  }

  /** One character of `String.prototype.toUpperCase`, for ASCII letters. */
  function UpperChar(c: char): (u: char) {
    if 'a' <= c <= 'z' then (c as int - 32) as char else c
  }

  /** One character of `String.prototype.toLowerCase`, for ASCII letters. */
  function LowerChar(c: char): (l: char) {
    if 'A' <= c <= 'Z' then (c as int + 32) as char else c
  }

  function ToUpper(s: string): (r: string)
    ensures |r| == |s|
    ensures forall i :: 0 <= i < |s| ==> r[i] == UpperChar(s[i])
  {
    seq(|s|, i requires 0 <= i < |s| => UpperChar(s[i]))
  }

  function ToLower(s: string): (r: string)
    ensures |r| == |s|
    ensures forall i :: 0 <= i < |s| ==> r[i] == LowerChar(s[i])
  {
    seq(|s|, i requires 0 <= i < |s| => LowerChar(s[i]))
  }

  /** `needle` occurs in `s` starting at index `i`. */
  predicate OccursAt(s: string, needle: string, i: nat) {
    i + |needle| <= |s| && s[i..i + |needle|] == needle
  }

  /** `String.prototype.includes`. */
  function Includes(s: string, needle: string): (b: bool)
    ensures b <==> exists i: nat :: OccursAt(s, needle, i)
  {
    if OccursAt(s, needle, 0) then true
    else if s == [] then false
    else
      var b := Includes(s[1..], needle);
      assert forall i: nat :: OccursAt(s[1..], needle, i) <==> OccursAt(s, needle, i + 1) by {
        forall i: nat ensures OccursAt(s[1..], needle, i) <==> OccursAt(s, needle, i + 1) {
          if i + |needle| <= |s[1..]| {
            assert s[1..][i..i + |needle|] == s[i + 1..i + 1 + |needle|];
          }
        }
      }
      assert !b ==> forall i: nat :: !OccursAt(s, needle, i) by {
        if !b {
          forall i: nat ensures !OccursAt(s, needle, i) {
            if i > 0 { assert !OccursAt(s[1..], needle, i - 1); }
          }
        }
      }
      b
  }

  /** `Array.prototype.join(sep)`. */
  function Join(parts: seq<string>, sep: string): string {
    if parts == [] then ""
    else if |parts| == 1 then parts[0]
    else parts[0] + sep + Join(parts[1..], sep)
  }

  /** The index of the first `c` in `s`, or `|s|` when there is none. */
  function IndexOfChar(s: string, c: char): (i: nat)
    ensures i <= |s|
    ensures forall j :: 0 <= j < i ==> s[j] != c
    ensures i < |s| ==> s[i] == c
  {
    if s == [] then 0
    else if s[0] == c then 0
    else 1 + IndexOfChar(s[1..], c)
  }

  /** `String.prototype.substring(start, end)` for `start <= end`: both
      bounds are clamped to the length. */
  function Substring(s: string, start: nat, end: nat): (r: string)
    requires start <= end
    ensures |r| <= end - start
    ensures |s| >= end ==> r == s[start..end]
  {
    var a := if start <= |s| then start else |s|;
    var b := if end <= |s| then end else |s|;
    s[a..b]
  }
}
