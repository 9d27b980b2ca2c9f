/** `Number.prototype.toString(radix)` for non-negative integers, its
    inverse, and the decimal rendering JavaScript uses in template strings. */
module Radix {

  /** The digit character `toString` writes for `d` (lower-case letters). */
  function DigitChar(d: nat): (c: char)
    requires d < 36
  {
    if d < 10 then ('0' as int + d) as char else ('a' as int + d - 10) as char
  }

  /** The value of a digit character, read case-insensitively as `parseInt`
      does; 36 for a character that is no digit at all. */
  function ValueOf(c: char): (v: nat)
    ensures v <= 36
  {
    if '0' <= c <= '9' then c as int - '0' as int
    else if 'a' <= c <= 'z' then c as int - 'a' as int + 10
    else if 'A' <= c <= 'Z' then c as int - 'A' as int + 10
    else 36
  }

  lemma DigitCharValue(d: nat)
    requires d < 36
    ensures ValueOf(DigitChar(d)) == d
    ensures DigitChar(d) != '-'
    ensures DigitChar(d) == '0' <==> d == 0
  {
  }

  lemma DivFacts(n: nat, base: nat)
    requires 2 <= base <= n
    ensures 1 <= n / base < n
    ensures n % base < base
    ensures n == n / base * base + n % base
  {
  }

  predicate IsDigit(c: char, base: nat) {
    ValueOf(c) < base
  }

  predicate AllDigits(s: string, base: nat) {
    forall i :: 0 <= i < |s| ==> IsDigit(s[i], base)
  }

  /** `n.toString(base)`: the shortest digit string of `n` without leading
      zeros. */
  function ToRadix(n: nat, base: nat): (s: string)
    requires 2 <= base <= 36
    ensures |s| >= 1
    ensures AllDigits(s, base)
    ensures s[0] == '0' <==> n == 0
    ensures n == 0 ==> s == "0"
    ensures '-' !in s
    decreases n
  {
    if n < base then
      DigitCharValue(n);
      [DigitChar(n)]
    else
      DivFacts(n, base);
      var high := ToRadix(n / base, base);
      DigitCharValue(n % base);
      var r := high + [DigitChar(n % base)];
      assert r[0] == high[0];
      assert forall i :: 0 <= i < |high| ==> r[i] == high[i];
      r
  }

  /** The number a digit string denotes, most significant digit first. */
  function FromRadix(s: string, base: nat): (n: nat)
    requires AllDigits(s, base)
  {
    if s == [] then 0
    else FromRadix(s[..|s| - 1], base) * base + ValueOf(s[|s| - 1])
  }

  /** Reading back what `toString(base)` wrote gives the number again. */
  lemma {:induction false} RadixRoundTrip(n: nat, base: nat)
    requires 2 <= base <= 36
    ensures FromRadix(ToRadix(n, base), base) == n
    decreases n
  {
    var s := ToRadix(n, base);
    if n < base {
      DigitCharValue(n);
      assert s[..0] == [];
    } else {
      DivFacts(n, base);
      DigitCharValue(n % base);
      RadixRoundTrip(n / base, base);
      assert s[..|s| - 1] == ToRadix(n / base, base);
    }
  }

  /** `toString(base)` is injective: distinct numbers get distinct texts. */
  lemma RadixInjective(m: nat, n: nat, base: nat)
    requires 2 <= base <= 36
    requires ToRadix(m, base) == ToRadix(n, base)
    ensures m == n
  {
    RadixRoundTrip(m, base);
    RadixRoundTrip(n, base);
  }

  /** `String(i)` for an integer. */
  function IntToString(i: int): (s: string)
    ensures |s| >= 1
    ensures i >= 0 ==> AllDigits(s, 10) && FromRadix(s, 10) == i
    ensures i < 0 ==> s[0] == '-' && AllDigits(s[1..], 10) && FromRadix(s[1..], 10) == -i
  {
    if i < 0 then
      var t := ToRadix(-i, 10);
      RadixRoundTrip(-i, 10);
      assert ("-" + t)[1..] == t;
      "-" + t
    else
      RadixRoundTrip(i, 10);
      ToRadix(i, 10)
  }
}
