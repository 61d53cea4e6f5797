/** expect_int: parse a C string of decimal digits into a non-negative
    `int`, rejecting any other character and any value that does not fit. */
module DecimalInt {
  import opened Wrappers

  /** The largest value of a 32-bit signed `int`. */
  const INT_MAX: int := 0x7fff_ffff

  predicate IsDigit(c: char) {
    '0' <= c <= '9'
  }

  predicate AllDigits(s: string) {
    forall i :: 0 <= i < |s| ==> IsDigit(s[i])
  }

  function DigitValue(c: char): (d: nat)
    requires IsDigit(c)
    ensures d <= 9
  {
    c as int - '0' as int
  }

  /** The value of a digit string read most significant digit first; the
      empty string is 0. */
  function DecimalValue(s: string): nat
    requires AllDigits(s)
  {
    if s == [] then 0 else DecimalValue(s[..|s| - 1]) * 10 + DigitValue(s[|s| - 1])
  }

  /** What expect_int reports for `s`: the value when `s` is all digits and
      the value fits in an `int`, and nothing otherwise. */
  function IntValue(s: string): (r: Option<int>)
    ensures r.Some? <==> AllDigits(s) && DecimalValue(s) <= INT_MAX
    ensures r.Some? ==> 0 <= r.value <= INT_MAX
  {
    if AllDigits(s) && DecimalValue(s) <= INT_MAX then Some(DecimalValue(s)) else None
  }

  /** expect_int on the characters of `str` (a C string cannot hold a NUL
      before its terminator, so none of them is 0). `out` is the value the
      out-parameter holds before the call; the second result is the value it
      holds after: the parsed number on success, unchanged on failure. */
  method ExpectInt(str: string, out: int) returns (ok: bool, result: int)
    ensures ok <==> AllDigits(str) && DecimalValue(str) <= INT_MAX
    ensures ok ==> result == DecimalValue(str)
    ensures !ok ==> result == out
    ensures str == [] ==> ok && result == 0
  {
    var num := 0;
    var i := 0;
    while i < |str|
      invariant 0 <= i <= |str|
      invariant AllDigits(str[..i])
      invariant num == DecimalValue(str[..i]) && num <= INT_MAX
    {
      var c := str[i];
      if c < '0' || c > '9' {
        assert !IsDigit(str[i]);
        return false, out;
      }
      var newVal := num * 10 + (c as int - '0' as int);
      assert str[..i + 1][..i] == str[..i];
      if newVal > INT_MAX {
        if AllDigits(str) {
          PrefixValueBound(str, i + 1);
        }
        return false, out;
      }
      num := newVal;
      i := i + 1;
    }
    assert str[..i] == str;
    return true, num;
  }

  /** A prefix of a digit string never has a larger value than the string. */
  lemma {:induction false} PrefixValueBound(s: string, k: nat)
    requires AllDigits(s) && k <= |s|
    ensures AllDigits(s[..k]) && DecimalValue(s[..k]) <= DecimalValue(s)
  {
    if k < |s| {
      var t := s[..|s| - 1];
      assert t[..k] == s[..k];
      PrefixValueBound(t, k);
      assert DecimalValue(s) == DecimalValue(t) * 10 + DigitValue(s[|s| - 1]);
    } else {
      assert s[..k] == s;
    }
  }

  function DigitChar(d: nat): (c: char)
    requires d <= 9
    ensures IsDigit(c) && DigitValue(c) == d
  {
    ('0' as int + d) as char
  }

  /** The shortest decimal spelling of `n` ("0" for zero). */
  function DecimalString(n: nat): (s: string)
    ensures AllDigits(s) && 1 <= |s|
    decreases n
  {
    if n < 10 then [DigitChar(n)] else DecimalString(n / 10) + [DigitChar(n % 10)]
  }

  /** Reading the decimal spelling of `n` gives back `n`. */
  lemma {:induction false} DecimalRoundTrip(n: nat)
    ensures DecimalValue(DecimalString(n)) == n
    decreases n
  {
    var s := DecimalString(n);
    if n < 10 {
      assert s[..|s| - 1] == [];
    } else {
      DecimalRoundTrip(n / 10);
      assert s[..|s| - 1] == DecimalString(n / 10);
    }
  }

  /** Every `int` from 0 to INT_MAX is accepted in its decimal spelling. */
  lemma AcceptsEveryInt(n: nat)
    requires n <= INT_MAX
    ensures IntValue(DecimalString(n)) == Some(n)
  {
    DecimalRoundTrip(n);
  }

  /** Leading zeros do not change the value. */
  lemma {:induction false} LeadingZero(s: string)
    requires AllDigits(s)
    ensures AllDigits("0" + s) && DecimalValue("0" + s) == DecimalValue(s)
    decreases |s|
  {
    var t := "0" + s;
    if s != [] {
      var p := s[..|s| - 1];
      assert t[..|t| - 1] == "0" + p;
      LeadingZero(p);
    } else {
      assert t[..|t| - 1] == [];
    }
  }

  /** Two's-complement wrap-around of an integer to 32 bits: the unique
      32-bit value congruent to `x` modulo 2^32. */
  function Wrap32(x: int): (w: int)
    ensures -INT_MAX - 1 <= w <= INT_MAX
    ensures (x - w) % 0x1_0000_0000 == 0
    ensures -INT_MAX - 1 <= x <= INT_MAX ==> w == x
  {
    (x + 0x8000_0000) % 0x1_0000_0000 - 0x8000_0000
  }

  /** The accumulator loop of expect_int as written, from accumulator `num`
      on: `num*10 + digit` wraps around in 32 bits and overflow is detected
      only by the result falling below `num`. */
  function AccumulateAsWritten(s: string, num: int): (r: Option<int>)
    ensures r.Some? ==> AllDigits(s)
    decreases |s|
  {
    if s == [] then Some(num)
    else if !IsDigit(s[0]) then None
    else
      var newVal := Wrap32(num * 10 + DigitValue(s[0]));
      if newVal < num then None else AccumulateAsWritten(s[1..], newVal)
  }

  /** While the value fits, the as-written loop computes the decimal value:
      continuing from the value of the digits `p` already read, reading the
      digits `s` leaves the accumulator at the value of `p + s`. */
  lemma {:induction false} AsWrittenAgreesInRange(p: string, s: string, rest: string)
    requires AllDigits(p) && AllDigits(s) && AllDigits(p + s)
    requires DecimalValue(p + s) <= INT_MAX
    ensures AccumulateAsWritten(s + rest, DecimalValue(p)) == AccumulateAsWritten(rest, DecimalValue(p + s))
    decreases |s|
  {
    if s == [] {
      assert p + s == p && s + rest == rest;
    } else {
      var p' := p + [s[0]];
      assert (p + s)[..|p'|] == p';
      assert p' + s[1..] == p + s;
      assert (s + rest)[1..] == s[1..] + rest;
      assert p'[..|p'| - 1] == p;
      PrefixValueBound(p + s, |p'|);
      AsWrittenAgreesInRange(p', s[1..], rest);
    }
  }

  /** Hence for every digit string whose value fits, the as-written loop
      returns that value. */
  lemma AsWrittenCorrectInRange(s: string)
    requires AllDigits(s) && DecimalValue(s) <= INT_MAX
    ensures AccumulateAsWritten(s, 0) == Some(DecimalValue(s))
  {
    assert [] + s == s && s + [] == s;
    AsWrittenAgreesInRange([], s, []);
  }

  function Pow10(k: nat): nat {
    if k == 0 then 1 else 10 * Pow10(k - 1)
  }

  /** The digit 1 followed by `k` zeros. */
  function OneThenZeros(k: nat): (s: string)
    ensures |s| == k + 1 && AllDigits(s)
  {
    if k == 0 then "1" else OneThenZeros(k - 1) + "0"
  }

  lemma {:induction false} OneThenZerosValue(k: nat)
    ensures DecimalValue(OneThenZeros(k)) == Pow10(k)
  {
    if k > 0 {
      var s := OneThenZeros(k);
      assert s[..|s| - 1] == OneThenZeros(k - 1);
      OneThenZerosValue(k - 1);
    }
  }

  /** The wrapped test misses an overflow: eleven digits worth 10^10 are
      accepted as 1410065408 (10^10 minus 2 * 2^32), while the value does not
      fit in an `int`. */
  lemma WrapAroundAccepted()
    ensures AccumulateAsWritten("10000000000", 0) == Some(1410065408)
    ensures IntValue("10000000000") == None
  {
    TenZeros();
    TenDigitsAccepted();
    OneThenZerosValue(10);
    assert Pow10(10) == 10000000000;
  }

  lemma TenDigitsAccepted()
    ensures AccumulateAsWritten(OneThenZeros(10), 0) == Some(1410065408)
  {
    var s := OneThenZeros(9);
    assert OneThenZeros(10) == s + "0";
    assert DecimalValue(s) == 1000000000 by {
      OneThenZerosValue(9);
      assert Pow10(9) == 1000000000;
    }
    assert [] + s == s;
    AsWrittenAgreesInRange([], s, "0");
    LastDigitWraps();
  }

  /** Appending the eleventh digit: 10 * 10^9 wraps to 1410065408, which is
      not below 10^9, so the overflow test does not fire. */
  lemma LastDigitWraps()
    ensures AccumulateAsWritten("0", 1000000000) == Some(1410065408)
  {
    assert Wrap32(10000000000) == 1410065408;
  }

  lemma TenZeros()
    ensures OneThenZeros(10) == "10000000000"
  {
    assert OneThenZeros(1) == "10";
    assert OneThenZeros(2) == "100";
    assert OneThenZeros(3) == "1000";
    assert OneThenZeros(4) == "10000";
    assert OneThenZeros(5) == "100000";
    assert OneThenZeros(6) == "1000000";
    assert OneThenZeros(7) == "10000000";
    assert OneThenZeros(8) == "100000000";
    assert OneThenZeros(9) == "1000000000";
    assert OneThenZeros(10) == "10000000000";
  }
}
