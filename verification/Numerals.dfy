/** Decimal numbers as Rust prints and parses them. */
module Numerals {
  import opened Basics

  function DigitChar(d: nat): char
    requires d < 10
  {
    '0' + d as char
  }

  function DigitValue(c: char): (d: nat)
    requires IsDigit(c)
    ensures d < 10
  {
    c as int - '0' as int
  }

  function ToDecimal(n: nat): (s: string)
    ensures s != ""
  {
    if n < 10 then [DigitChar(n)] else ToDecimal(n / 10) + [DigitChar(n % 10)]
  }

  predicate Digits(s: string) { forall i | 0 <= i < |s| :: IsDigit(s[i]) }

  function Value(s: string): nat
    requires Digits(s)
  {
    if s == "" then 0 else Value(s[..|s| - 1]) * 10 + DigitValue(s[|s| - 1])
  }

  /** `str::parse::<u64>`: an optional plus sign, at least one digit, no overflow. */
  function ParseU64(s: string): Option<nat> {
    var digits := if s != "" && s[0] == '+' then s[1..] else s;
    if digits != "" && Digits(digits) && Value(digits) <= U64_MAX then Some(Value(digits)) else None
  }

  lemma {:induction false} DecimalValue(n: nat)
    ensures Digits(ToDecimal(n)) && Value(ToDecimal(n)) == n
  {
    if n >= 10 {
      DecimalValue(n / 10);
      var s := ToDecimal(n);
      assert s[..|s| - 1] == ToDecimal(n / 10);
    }
  }

  ghost predicate WritesU64(s: string, digits: string, n: nat) {
    (s == digits || s == "+" + digits) && digits != "" && Digits(digits) && Value(digits) == n && n <= 0xFFFF_FFFF_FFFF_FFFF
  }

  /** A text is read as a number exactly when it is digits, perhaps after a plus sign, worth less than 2^64. */
  lemma ParseIff(s: string, n: nat)
    ensures ParseU64(s) == Some(n) <==> exists digits :: WritesU64(s, digits, n)
  {
    hide Value;
    if ParseU64(s) == Some(n) {
      var digits := if s != "" && s[0] == '+' then s[1..] else s;
      assert WritesU64(s, digits, n);
    }
    if digits :| WritesU64(s, digits, n) {
      assert IsDigit(digits[0]);
      if s == "+" + digits { assert s[1..] == digits; }
    }
  }

  lemma ParseDecimal(n: nat)
    ensures ParseU64(ToDecimal(n)) == if n <= U64_MAX then Some(n) else None
  {
    DecimalValue(n);
    assert IsDigit(ToDecimal(n)[0]);
  }

  lemma DecimalInjective(m: nat, n: nat)
    requires ToDecimal(m) == ToDecimal(n)
    ensures m == n
  {
    DecimalValue(m);
    DecimalValue(n);
  }
}
