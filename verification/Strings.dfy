/**
 Decimal numerals and separator-delimited strings, as produced by Rust's `format!`.

 Both the virtual-node ids "name:i" and the shuffle paths "dir/stage/partition/data-i.arrow" put a
 numeral after the last separator; the lemmas here show that such strings can be taken apart again.
 */
module Strings {

  const DIGITS: string := "0123456789"

  /** The decimal numeral of n, without leading zeros. */
  function Decimal(n: nat): (s: string)
    ensures s != []
    ensures forall c :: c in s ==> c in DIGITS
  {
    if n < 10 then [DIGITS[n]] else Decimal(n / 10) + [DIGITS[n % 10]]
  }

  /** Left inverse of the digit table. */
  function DigitValue(c: char): (d: nat)
  {
    if '0' <= c <= '9' then c as int - '0' as int else 0
  }

  /** Reads a numeral back. */
  function Value(s: string): (n: nat)
  {
    if s == [] then 0 else 10 * Value(s[..|s| - 1]) + DigitValue(s[|s| - 1])
  }

  lemma {:induction false} ValueOfDecimal(n: nat)
    ensures Value(Decimal(n)) == n
  {
    if n < 10 {
      assert Decimal(n)[..0] == [];
      assert DigitValue(DIGITS[n]) == n;
    } else {
      ValueOfDecimal(n / 10);
      var s := Decimal(n);
      assert s[..|s| - 1] == Decimal(n / 10);
      assert DigitValue(DIGITS[n % 10]) == n % 10;
    }
  }

  /** Numerals are injective: `format!("{i}")` tells different numbers apart. */
  lemma DecimalInjective(m: nat, n: nat)
    requires Decimal(m) == Decimal(n)
    ensures m == n
  {
    ValueOfDecimal(m);
    ValueOfDecimal(n);
  }

  /** How much of s stands before its last separator; -1 if there is none. */
  function LastIndexOf(s: string, sep: char): (i: int)
    ensures -1 <= i < |s|
  {
    if s == [] then -1
    else if s[|s| - 1] == sep then |s| - 1
    else LastIndexOf(s[..|s| - 1], sep)
  }

  lemma {:induction false} LastIndexOfJoined(sep: char, a: string, x: string)
    requires sep !in x
    ensures LastIndexOf(a + [sep] + x, sep) == |a|
  {
    var s := a + [sep] + x;
    if x != [] {
      assert s[..|s| - 1] == a + [sep] + x[..|x| - 1];
      LastIndexOfJoined(sep, a, x[..|x| - 1]);
    }
  }

  /** A string is determined by what stands before and after its last separator. */
  lemma LastSeparator(sep: char, a: string, x: string, b: string, y: string)
    requires sep !in x && sep !in y
    requires a + [sep] + x == b + [sep] + y
    ensures a == b && x == y
  {
    LastIndexOfJoined(sep, a, x);
    LastIndexOfJoined(sep, b, y);
    assert a == (a + [sep] + x)[..|a|];
    assert b == (b + [sep] + y)[..|a|];
    assert x == (a + [sep] + x)[|a| + 1..];
    assert y == (b + [sep] + y)[|a| + 1..];
  }
}
