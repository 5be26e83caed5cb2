/** The two conversions between integers and text that the core relies on:
    `str(n)` (decimal rendering, used for the fallback phrase index) and
    `int(s)` (used on the time-offset attributes). */
module PyInt {
  import opened Wrappers

  predicate IsDigit(c: char) {
    '0' <= c <= '9'
  }

  predicate IsDecimal(s: string) {
    |s| > 0 && forall k :: 0 <= k < |s| ==> IsDigit(s[k])
  }

  function DigitValue(c: char): (d: nat)
    requires IsDigit(c)
    ensures d < 10
  {
    c as int - '0' as int
  }

  function DigitChar(d: nat): (c: char)
    requires d < 10
    ensures IsDigit(c) && DigitValue(c) == d
  {
    ('0' as int + d) as char
  }

  /** `str(n)` for a non-negative `n`: its decimal digits, without leading zeros. */
  function NatStr(n: nat): (s: string)
    ensures IsDecimal(s)
    ensures |s| > 1 ==> s[0] != '0'
    decreases n
  {
    if n < 10 then [DigitChar(n)] else NatStr(n / 10) + [DigitChar(n % 10)]
  }

  /** `str(i)` for any integer: a minus sign before the digits of a negative one. */
  function Str(i: int): (s: string)
    ensures i >= 0 ==> IsDecimal(s)
    ensures i < 0 ==> |s| > 1 && s[0] == '-' && IsDecimal(s[1..])
  {
    if i < 0 then "-" + NatStr(-i) else NatStr(i)
  }

  /** The value of a string of decimal digits, most significant first. */
  function DigitsValue(s: string): nat
    requires IsDecimal(s)
    decreases |s|
  {
    var last := DigitValue(s[|s| - 1]);
    if |s| == 1 then last else 10 * DigitsValue(s[..|s| - 1]) + last
  }

  /** `int(s)`: an optional sign followed by decimal digits; None where Python
      raises ValueError. */
  function ParseInt(s: string): (r: Option<int>)
    ensures IsDecimal(s) ==> r.Some? && r.value >= 0
    ensures r.Some? ==> |s| > 0
    ensures |s| > 0 && s[0] == '-' && r.Some? ==> r.value <= 0
  {
    if |s| > 0 && (s[0] == '-' || s[0] == '+') then
      if IsDecimal(s[1..]) then
        var magnitude: int := DigitsValue(s[1..]);
        Some(if s[0] == '-' then -magnitude else magnitude)
      else None
    else if IsDecimal(s) then Some(DigitsValue(s))
    else None
  }

  lemma {:induction false} NatStrRoundTrip(n: nat)
    ensures DigitsValue(NatStr(n)) == n
    decreases n
  {
    if n >= 10 {
      var s := NatStr(n);
      assert s[..|s| - 1] == NatStr(n / 10);
      NatStrRoundTrip(n / 10);
    }
  }

  /** `int(str(i)) == i`: the decimal rendering can be read back. */
  lemma StrRoundTrip(i: int)
    ensures ParseInt(Str(i)) == Some(i)
  {
    if i < 0 {
      var s := Str(i);
      assert s[1..] == NatStr(-i);
      NatStrRoundTrip(-i);
    } else {
      NatStrRoundTrip(i);
    }
  }

  /** Distinct integers have distinct renderings. */
  lemma StrInjective(i: int, j: int)
    requires Str(i) == Str(j)
    ensures i == j
  {
    StrRoundTrip(i);
    StrRoundTrip(j);
  }
}
