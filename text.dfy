/**
 * Character classes and the decimal conversions of QString that the core relies on:
 * QString::number(qlonglong) (canonical decimal text) and QString::toLongLong()
 * (signed 64-bit parse that yields 0 on any failure, overflow included).
 */
module Text {

  predicate IsDigit(c: char) {
    '0' <= c <= '9'
  }

  predicate AllDigits(s: string) {
    forall i :: 0 <= i < |s| ==> IsDigit(s[i])
  }

  /** ASCII letter folded to lower case; other characters are left alone. */
  function ToLowerAscii(c: char): (r: char)
    ensures 'A' <= c <= 'Z' ==> 'a' <= r <= 'z' && r as int == c as int + 32
    ensures !('A' <= c <= 'Z') ==> r == c
  {
    if 'A' <= c <= 'Z' then ((c as int) + 32) as char else c
  }

  function DigitValue(c: char): (d: nat)
    requires IsDigit(c)
    ensures d < 10
  {
    (c as int) - ('0' as int)
  }

  function DigitChar(d: nat): (c: char)
    requires d < 10
    ensures IsDigit(c) && DigitValue(c) == d
  {
    (('0' as int) + d) as char
  }

  /** Shortest decimal text of a natural number (no leading zeros). */
  function NatToDecimal(n: nat): (r: string)
    ensures |r| >= 1 && AllDigits(r)
    decreases n
  {
    if n < 10 then [DigitChar(n)] else NatToDecimal(n / 10) + [DigitChar(n % 10)]
  }

  /** Value of a digit string, most significant digit first. */
  function DecimalValue(s: string): nat
    requires AllDigits(s)
    decreases |s|
  {
    if |s| == 0 then 0 else DecimalValue(s[..|s| - 1]) * 10 + DigitValue(s[|s| - 1])
  }

  lemma {:induction false} DecimalRoundTrip(n: nat)
    ensures DecimalValue(NatToDecimal(n)) == n
    decreases n
  {
    if n >= 10 {
      var s := NatToDecimal(n);
      assert s[..|s| - 1] == NatToDecimal(n / 10);
      DecimalRoundTrip(n / 10);
    }
  }

  /** A natural number's decimal text starts with '0' only when the number is zero. */
  lemma {:induction false} NatToDecimalNoLeadingZero(n: nat)
    ensures NatToDecimal(n)[0] == '0' <==> n == 0
    decreases n
  {
    if n >= 10 {
      NatToDecimalNoLeadingZero(n / 10);
    }
  }

  /** Numbers below 10^k have at most k decimal digits. */
  lemma {:induction false} NatToDecimalLength(n: nat, k: nat)
    requires 1 <= k && n < Pow10(k)
    ensures |NatToDecimal(n)| <= k
    decreases k
  {
    if n >= 10 {
      assert Pow10(1) == 10;
      assert n / 10 < Pow10(k - 1);
      NatToDecimalLength(n / 10, k - 1);
    }
  }

  function Pow10(k: nat): (p: nat)
    ensures p >= 1
  {
    if k == 0 then 1 else 10 * Pow10(k - 1)
  }

  const Int64Min: int := -0x8000_0000_0000_0000
  const Int64Max: int := 0x7FFF_FFFF_FFFF_FFFF

  /** The range of qlonglong. */
  predicate InInt64(i: int) {
    Int64Min <= i <= Int64Max
  }

  /** QString::number for a qlonglong: '-' for negatives, then the shortest digits. */
  function Number(i: int): (r: string)
    ensures |r| >= 1
  {
    if i < 0 then "-" + NatToDecimal(-i) else NatToDecimal(i)
  }

  /**
   * QString::toLongLong in base 10: an optional sign followed by at least one digit,
   * whose value fits in 64 bits; anything else (overflow included) gives 0.
   */
  function ToLongLong(s: string): (r: int)
    ensures InInt64(r)
  {
    var negative := |s| > 0 && s[0] == '-';
    var digits := if |s| > 0 && (s[0] == '-' || s[0] == '+') then s[1..] else s;
    if |digits| == 0 || !AllDigits(digits) then 0
    else
      var v := if negative then -(DecimalValue(digits) as int) else DecimalValue(digits) as int;
      if InInt64(v) then v else 0
  }

  /** Parsing the canonical text of any 64-bit integer gives that integer back. */
  lemma ParseNumber(n: int)
    requires InInt64(n)
    ensures ToLongLong(Number(n)) == n
  {
    var s := Number(n);
    if n < 0 {
      var d := NatToDecimal(-n);
      assert s == "-" + d && s[1..] == d;
      DecimalRoundTrip(-n);
      assert DecimalValue(d) == -n;
    } else {
      DecimalRoundTrip(n);
      assert s[0] != '-' && s[0] != '+' by { assert IsDigit(s[0]); }
    }
  }

  /**
   * The shape of canonical text: no '+', no leading zero and at most 19 digits for 64-bit
   * values, and for a negative value '-' before such digits.
   */
  lemma NumberShape(n: int)
    requires InInt64(n)
    ensures Number(n)[0] != '+'
    ensures |Number(n)| > 1 && n >= 0 ==> Number(n)[0] != '0'
    ensures n >= 0 ==> |Number(n)| <= 19 && AllDigits(Number(n))
    ensures n < 0 ==> Number(n)[0] == '-' && AllDigits(Number(n)[1..])
    ensures n < 0 ==> 2 <= |Number(n)| <= 20 && Number(n)[1] != '0'
  {
    var m := if n < 0 then -n else n;
    NatToDecimalNoLeadingZero(m);
    assert Pow10(9) == 1_000_000_000;
    assert Pow10(14) == 100_000_000_000_000;
    assert Pow10(19) == 10_000_000_000_000_000_000;
    NatToDecimalLength(m, 19);
    if n < 0 {
      assert Number(n)[1..] == NatToDecimal(m);
    }
  }
}
