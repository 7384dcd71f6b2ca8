/** Durations of funnel steps (src/tools.rs): the JSON form of google.protobuf.Duration, never negative. */
module Durations {
  import opened Basics
  import opened Numerals

  const MAX_FUNNEL_DURATION_SECONDS: nat := 315_576_000_000

  /** `str::split`: the pieces between the dots. */
  function Split(s: string): (parts: seq<string>)
    ensures parts != []
  {
    if s == "" then [""]
    else
      var rest := Split(s[1..]);
      if s[0] == '.' then [""] + rest else [[s[0]] + rest[0]] + rest[1..]
  }

  predicate AllZeros(s: string) { forall i | 0 <= i < |s| :: s[i] == '0' }

  predicate IsValidFunnelDuration(value: string) {
    && value != "" && value[|value| - 1] == 's'
    && var parts := Split(value[..|value| - 1]);
    var seconds := parts[0];
    && seconds != "" && Digits(seconds)
    && ParseU64(seconds).Some?
    && var secondsValue := ParseU64(seconds).value;
    && secondsValue <= MAX_FUNNEL_DURATION_SECONDS
    && match |parts|
       case 1 => true
       case 2 =>
         var fraction := parts[1];
         && fraction != "" && |fraction| <= 9 && Digits(fraction)
         && (secondsValue < MAX_FUNNEL_DURATION_SECONDS || AllZeros(fraction))
       case _ => false
  }

  // ---------- the notation ----------

  function Power(n: nat): nat { if n == 0 then 1 else 10 * Power(n - 1) }

  /** `digits[.1-9 digits]s`. */
  ghost predicate Writes(value: string, seconds: string, fraction: Option<string>) {
    && seconds != "" && Digits(seconds)
    && (fraction.Some? ==> 1 <= |fraction.value| <= 9 && Digits(fraction.value))
    && value == seconds + (if fraction.Some? then "." + fraction.value else "") + "s"
  }

  /** The exact length in nanoseconds. */
  function Nanoseconds(seconds: string, fraction: Option<string>): nat
    requires Digits(seconds) && (fraction.Some? ==> |fraction.value| <= 9 && Digits(fraction.value))
  {
    Value(seconds) * Power(9) + if fraction.Some? then Value(fraction.value) * Power(9 - |fraction.value|) else 0
  }

  // ---------- pieces ----------

  lemma {:induction false} SplitPlain(s: string)
    requires '.' !in s
    ensures Split(s) == [s]
  {
    if s != "" {
      SplitPlain(s[1..]);
      assert [s[0]] + s[1..] == s;
    }
  }

  lemma {:induction false} SplitOnce(a: string, b: string)
    requires '.' !in a
    ensures Split(a + "." + b) == [a] + Split(b)
  {
    var s := a + "." + b;
    if a == "" {
      assert s[1..] == b;
    } else {
      assert s[1..] == a[1..] + "." + b;
      SplitOnce(a[1..], b);
      assert [a[0]] + a[1..] == a;
    }
  }

  /** One piece is the text itself, two are the texts around its only dot. */
  lemma {:induction false} SplitBack(s: string)
    ensures '.' !in Split(s)[0]
    ensures |Split(s)| == 1 ==> s == Split(s)[0]
    ensures |Split(s)| == 2 ==> s == Split(s)[0] + "." + Split(s)[1]
    ensures |Split(s)| == 2 ==> '.' !in Split(s)[1]
  {
    if s != "" {
      SplitBack(s[1..]);
      assert s == [s[0]] + s[1..];
    }
  }

  lemma DigitsHaveNoDot(s: string)
    requires Digits(s)
    ensures '.' !in s
  {}

  lemma {:induction false} PowerPositive(n: nat)
    ensures Power(n) > 0
  {
    if n > 0 { PowerPositive(n - 1); }
  }

  lemma {:induction false} PowerAdds(m: nat, n: nat)
    ensures Power(m) * Power(n) == Power(m + n)
  {
    if m > 0 { PowerAdds(m - 1, n); }
  }

  lemma {:induction false} FractionIsSmall(s: string)
    requires Digits(s)
    ensures Value(s) < Power(|s|)
    ensures Value(s) == 0 <==> AllZeros(s)
  {
    if s != "" { FractionIsSmall(s[..|s| - 1]); }
  }

  /** A fraction is less than a second, and nothing exactly when all its digits are zeros. */
  lemma FractionBounds(f: string)
    requires |f| <= 9 && Digits(f)
    ensures Value(f) * Power(9 - |f|) < Power(9)
    ensures Value(f) * Power(9 - |f|) == 0 <==> AllZeros(f)
  {
    hide Power, Value, AllZeros;
    FractionIsSmall(f);
    PowerPositive(9 - |f|);
    PowerAdds(|f|, 9 - |f|);
    Scaled(Value(f), Power(|f|), Power(9 - |f|));
  }

  lemma Scaled(v: nat, p: nat, q: nat)
    requires v < p && q > 0
    ensures v * q < p * q && (v * q == 0 <==> v == 0)
  {}

  lemma InRangeIff(seconds: string, fraction: Option<string>)
    requires Digits(seconds) && (fraction.Some? ==> |fraction.value| <= 9 && Digits(fraction.value))
    ensures var n := Value(seconds);
            Nanoseconds(seconds, fraction) <= MAX_FUNNEL_DURATION_SECONDS * Power(9)
            <==> n < MAX_FUNNEL_DURATION_SECONDS
                 || (n == MAX_FUNNEL_DURATION_SECONDS && (fraction.Some? ==> AllZeros(fraction.value)))
  {
    hide AllZeros, Value, Power;
    PowerPositive(9);
    if fraction.Some? { FractionBounds(fraction.value); }
    var rest := if fraction.Some? then Value(fraction.value) * Power(9 - |fraction.value|) else 0;
    WholeFirst(Value(seconds), rest, MAX_FUNNEL_DURATION_SECONDS, Power(9));
  }

  lemma WholeFirst(n: nat, rest: nat, m: nat, p: nat)
    requires rest < p
    ensures n * p + rest <= m * p <==> n < m || (n == m && rest == 0)
  {
    if n < m {
      AddMultiples(n, m - n, p);
    } else if n > m {
      AddMultiples(m, n - m, p);
    }
  }

  lemma AddMultiples(n: nat, k: nat, p: nat)
    requires k > 0
    ensures (n + k) * p == n * p + k * p >= n * p + p
  {
    assert (k - 1) * p >= 0;
  }

  // ---------- the check ----------

  lemma PartsSay(value: string, seconds: string, fraction: Option<string>)
    requires Writes(value, seconds, fraction)
    ensures value != "" && value[|value| - 1] == 's'
    ensures Split(value[..|value| - 1]) == [seconds] + if fraction.Some? then [fraction.value] else []
  {
    DigitsHaveNoDot(seconds);
    var number := value[..|value| - 1];
    if fraction.Some? {
      DigitsHaveNoDot(fraction.value);
      assert number == seconds + "." + fraction.value;
      SplitOnce(seconds, fraction.value);
      SplitPlain(fraction.value);
    } else {
      assert number == seconds;
      SplitPlain(seconds);
    }
  }

  /** Of what a text writes, the check accepts exactly the lengths in range; parsing overflows only out of range. */
  lemma WrittenIsAcceptedIff(value: string, seconds: string, fraction: Option<string>)
    requires Writes(value, seconds, fraction)
    ensures IsValidFunnelDuration(value)
            <==> Nanoseconds(seconds, fraction) <= 315_576_000_000 * 1_000_000_000
  {
    NanosecondsInSecond();
    hide Split, AllZeros, Value, Power, Nanoseconds;
    PartsSay(value, seconds, fraction);
    InRangeIff(seconds, fraction);
    assert IsDigit(seconds[0]);
  }

  lemma NanosecondsInSecond()
    ensures Power(9) == 1_000_000_000
  {}

  lemma AcceptedIsWritten(value: string)
    requires IsValidFunnelDuration(value)
    ensures exists seconds, fraction :: Writes(value, seconds, fraction)
  {
    hide Split, AllZeros, Value, ParseU64;
    var number := value[..|value| - 1];
    var parts := Split(number);
    SplitBack(number);
    assert value == number + "s";
    var fraction := if |parts| == 2 then Some(parts[1]) else None;
    assert Writes(value, parts[0], fraction);
  }

  ghost predicate InRange(value: string, seconds: string, fraction: Option<string>) {
    Writes(value, seconds, fraction) && Nanoseconds(seconds, fraction) <= 315_576_000_000 * 1_000_000_000
  }

  /** The check accepts exactly the texts that write a length of at most 315,576,000,000 seconds, to the nanosecond. */
  lemma AcceptsExactlyTheDurations(value: string)
    ensures IsValidFunnelDuration(value) <==> exists seconds, fraction :: InRange(value, seconds, fraction)
  {
    hide IsValidFunnelDuration, Nanoseconds, Power, Writes;
    if IsValidFunnelDuration(value) {
      AcceptedIsWritten(value);
      var seconds, fraction :| Writes(value, seconds, fraction);
      WrittenIsAcceptedIff(value, seconds, fraction);
      assert InRange(value, seconds, fraction);
    }
    if exists seconds, fraction :: InRange(value, seconds, fraction) {
      var seconds, fraction :| InRange(value, seconds, fraction);
      WrittenIsAcceptedIff(value, seconds, fraction);
    }
  }

  /** A text writes at most one duration. */
  lemma WritesOnce(value: string, s: string, f: Option<string>, t: string, g: Option<string>)
    requires Writes(value, s, f) && Writes(value, t, g)
    ensures s == t && f == g
  {
    hide Split;
    PartsSay(value, s, f);
    PartsSay(value, t, g);
    var parts := Split(value[..|value| - 1]);
    assert parts[0] == s && parts[0] == t;
    assert |parts| == (if f.Some? then 2 else 1) == (if g.Some? then 2 else 1);
    if f.Some? { assert parts[1] == f.value && parts[1] == g.value; }
  }
}
