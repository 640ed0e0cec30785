/**
 * Go's fixed-width integers and the decimal conversions of package strconv that the
 * core relies on: int64 addition wraps modulo 2^64, strconv.ParseInt(s, 10, 64)
 * accepts an optional sign followed by decimal digits and rejects values out of range,
 * and strconv.Itoa / FormatInt / FormatUint render in decimal without leading zeros.
 */
module Numbers {
  import opened Wrappers

  const Two64: int := 0x1_0000_0000_0000_0000
  const MinInt64: int := -0x8000_0000_0000_0000
  const MaxInt64: int := 0x7fff_ffff_ffff_ffff

  type Int64 = x: int | MinInt64 <= x <= MaxInt64

  /**
   * A Go float64, kept as its IEEE 754 bit pattern. Gauge values are only stored,
   * overwritten and echoed, so the model never interprets the bits.
   */
  datatype Float64 = Float64(bits: bv64)

  /** The float64 zero value (0.0). */
  const ZeroFloat: Float64 := Float64(0)

  /** Two's-complement truncation of an integer to int64. */
  function Wrap(x: int): (r: Int64)
    ensures (r - x) % Two64 == 0
    ensures MinInt64 <= x <= MaxInt64 ==> r == x
  {
    (x - MinInt64) % Two64 + MinInt64
  }

  /** Go's `a + b` on int64. */
  function AddWrap(a: Int64, b: Int64): Int64
  {
    Wrap(a + b)
  }

  /** Two integers congruent modulo 2^64 truncate to the same int64. */
  lemma WrapCongruent(x: int, y: int)
    requires (x - y) % Two64 == 0
    ensures Wrap(x) == Wrap(y)
  {
    var k := (x - y) / Two64;
    assert x - MinInt64 == (y - MinInt64) + k * Two64;
    LemmaModAddMultiple(y - MinInt64, k);
  }

  lemma LemmaModAddMultiple(a: int, k: int)
    ensures (a + k * Two64) % Two64 == a % Two64
  {
    var q := a / Two64;
    var r := a % Two64;
    assert a + k * Two64 == (q + k) * Two64 + r;
  }

  /** Wrapping an intermediate sum does not change the final int64 sum. */
  lemma WrapAddLeft(x: int, y: int)
    ensures Wrap(Wrap(x) + y) == Wrap(x + y)
  {
    assert ((Wrap(x) + y) - (x + y)) % Two64 == 0;
    WrapCongruent(Wrap(x) + y, x + y);
  }

  /** Adding to a wrapped running sum is wrapping the exact running sum. */
  lemma AddWrapRunning(sum: int, d: Int64)
    ensures AddWrap(Wrap(sum), d) == Wrap(sum + d)
  {
    WrapAddLeft(sum, d);
  }

  predicate IsDigit(c: char) {
    '0' <= c <= '9'
  }

  predicate AllDigits(s: string) {
    forall i :: 0 <= i < |s| ==> IsDigit(s[i])
  }

  function DigitChar(d: nat): (c: char)
    requires d < 10
    ensures IsDigit(c)
  {
    ('0' as int + d) as char
  }

  function DigitValue(c: char): nat
    requires IsDigit(c)
  {
    c as int - '0' as int
  }

  /** The value of a string of decimal digits, most significant first. */
  function DecimalValue(s: string): nat
    requires AllDigits(s)
  {
    if s == [] then 0 else DecimalValue(s[..|s| - 1]) * 10 + DigitValue(s[|s| - 1])
  }

  /** The decimal digits of n, most significant first (strconv.FormatUint(n, 10)). */
  function NatToDecimal(n: nat): (s: string)
    ensures |s| > 0 && AllDigits(s)
    ensures |s| > 1 ==> s[0] != '0'
  {
    if n < 10 then [DigitChar(n)] else NatToDecimal(n / 10) + [DigitChar(n % 10)]
  }

  /** strconv.Itoa / strconv.FormatInt(n, 10). */
  function IntToDecimal(n: int): string
  {
    if n < 0 then "-" + NatToDecimal(-n) else NatToDecimal(n)
  }

  /** The length of the optional '+' or '-' that strconv.ParseInt accepts before the digits. */
  function SignLength(s: string): (n: nat)
    ensures n <= 1 && n <= |s|
  {
    if |s| > 0 && (s[0] == '+' || s[0] == '-') then 1 else 0
  }

  /**
   * strconv.ParseInt(s, 10, 64): None for a syntax or range error. Every accepted string
   * is an optional sign followed by at least one decimal digit; ParseInt64Accepts gives
   * the value of each such string.
   */
  function ParseInt64(s: string): (r: Option<Int64>)
    ensures r.Some? ==> SignLength(s) < |s| && AllDigits(s[SignLength(s)..])
  {
    if |s| == 0 then None
    else
      var neg := s[0] == '-';
      var body := if s[0] == '+' || s[0] == '-' then s[1..] else s;
      if |body| == 0 || !AllDigits(body) then None
      else
        var v: int := if neg then 0 - DecimalValue(body) else DecimalValue(body);
        if MinInt64 <= v <= MaxInt64 then Some(v) else None
  }

  /**
   * A sign ("", "+" or "-") followed by decimal digits (leading zeros allowed) parses
   * to the signed value of the digits exactly when that value lies in the int64 range.
   */
  lemma ParseInt64Accepts(sign: string, digits: string)
    requires sign == "" || sign == "+" || sign == "-"
    requires |digits| > 0 && AllDigits(digits)
    ensures var v := if sign == "-" then 0 - DecimalValue(digits) else DecimalValue(digits);
      ParseInt64(sign + digits) == (if MinInt64 <= v <= MaxInt64 then Some(v) else None)
  {
    var s := sign + digits;
    assert IsDigit(digits[0]);
    assert s[SignLength(s)..] == digits;
  }

  /** Leading zeros and a '+' are accepted; a bare sign, the empty string and a fraction are not. */
  lemma ParseInt64Edges()
    ensures ParseInt64("+007") == Some(7) && ParseInt64("-10") == Some(-10)
    ensures ParseInt64("-").None? && ParseInt64("").None? && ParseInt64("1.5").None?
  {
    assert DecimalValue("007") == 7 by {
      assert "007"[..2] == "00";
      assert "00"[..1] == "0";
      assert "0"[..0] == "";
    }
    ParseInt64Accepts("+", "007");
    assert "+" + "007" == "+007";
    assert DecimalValue("10") == 10 by {
      assert "10"[..1] == "1";
      assert "1"[..0] == "";
    }
    ParseInt64Accepts("-", "10");
    assert "-" + "10" == "-10";
    assert !IsDigit("1.5"[1]);
  }

  lemma {:induction false} DecimalValueOfFormat(n: nat)
    ensures DecimalValue(NatToDecimal(n)) == n
  {
    if n >= 10 {
      var s := NatToDecimal(n / 10) + [DigitChar(n % 10)];
      assert s[..|s| - 1] == NatToDecimal(n / 10);
      DecimalValueOfFormat(n / 10);
    }
  }

  /** Rendering an int64 in decimal and parsing it back gives the same value. */
  lemma ParseFormatRoundTrip(n: Int64)
    ensures ParseInt64(IntToDecimal(n)) == Some(n)
  {
    var s := IntToDecimal(n);
    if n < 0 {
      var digits := NatToDecimal(0 - n as int);
      assert s == "-" + digits;
      assert s[0] == '-' && s[1..] == digits;
      DecimalValueOfFormat(0 - n as int);
    } else {
      var digits := NatToDecimal(n);
      assert s == digits;
      assert IsDigit(s[0]);
      DecimalValueOfFormat(n);
    }
  }

  /** The decimal rendering is injective, so distinct values never print alike. */
  lemma IntToDecimalInjective(a: Int64, b: Int64)
    requires IntToDecimal(a) == IntToDecimal(b)
    ensures a == b
  {
    ParseFormatRoundTrip(a);
    ParseFormatRoundTrip(b);
  }
}
