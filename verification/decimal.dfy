/**
 * Decimal rendering of naturals, as Rust's `u32::to_string` writes them and as
 * chrono writes zero-padded calendar fields, together with the reading-back
 * function that makes each rendering checkable.
 */
module Decimal {

  predicate IsDigit(c: char) {
    '0' <= c <= '9'
  }

  predicate AllDigits(s: string) {
    forall i :: 0 <= i < |s| ==> IsDigit(s[i])
  }

  function DigitChar(d: nat): (c: char)
    requires d < 10
    ensures IsDigit(c) && c as int - '0' as int == d
  {
    ('0' as int + d) as char
  }

  /** The shortest decimal rendering of `n`: no sign, no leading zero. */
  function DecimalString(n: nat): (s: string)
    ensures 1 <= |s| && AllDigits(s)
    ensures s[0] == '0' <==> n == 0
    ensures n < 10 <==> |s| == 1
  {
    if n < 10 then [DigitChar(n)] else DecimalString(n / 10) + [DigitChar(n % 10)]
  }

  /** The number a string of digits denotes (leading zeros allowed). */
  function DigitsValue(s: string): nat
    requires AllDigits(s)
  {
    if |s| == 0 then 0 else DigitsValue(s[..|s| - 1]) * 10 + (s[|s| - 1] as int - '0' as int)
  }

  lemma {:induction false} DecimalRoundTrip(n: nat)
    ensures DigitsValue(DecimalString(n)) == n
  {
    if n >= 10 {
      var s := DecimalString(n);
      assert s[..|s| - 1] == DecimalString(n / 10);
      DecimalRoundTrip(n / 10);
    }
  }

  lemma {:induction false} DecimalInjective(a: nat, b: nat)
    ensures DecimalString(a) == DecimalString(b) ==> a == b
  {
    DecimalRoundTrip(a);
    DecimalRoundTrip(b);
  }

  function Pow10(w: nat): (p: nat)
    ensures p >= 1
  {
    if w == 0 then 1 else 10 * Pow10(w - 1)
  }

  lemma {:induction false} DecimalLength(n: nat, w: nat)
    requires 1 <= w && n < Pow10(w)
    ensures |DecimalString(n)| <= w
  {
    if n >= 10 {
      DecimalLength(n / 10, w - 1);
    }
  }

  function Zeros(k: nat): (s: string)
    ensures |s| == k && AllDigits(s)
    ensures forall i :: 0 <= i < k ==> s[i] == '0'
  {
    if k == 0 then "" else Zeros(k - 1) + "0"
  }

  /**
   * `n` in decimal, left-padded with zeros to at least `width` characters
   * (chrono's `%Y` pads to 4, `%m %d %H %M %S` to 2; a wider value is not cut).
   */
  function PadZeros(n: nat, width: nat): (s: string)
    ensures AllDigits(s)
    ensures |s| == if |DecimalString(n)| < width then width else |DecimalString(n)|
  {
    var digits := DecimalString(n);
    if |digits| < width then Zeros(width - |digits|) + digits else digits
  }

  lemma {:induction false} LeadingZerosValue(k: nat, s: string)
    requires AllDigits(s)
    ensures AllDigits(Zeros(k) + s) && DigitsValue(Zeros(k) + s) == DigitsValue(s)
    decreases |s|
  {
    var t := Zeros(k) + s;
    assert AllDigits(t) by {
      forall i | 0 <= i < |t| ensures IsDigit(t[i]) {
        if i < k { assert t[i] == Zeros(k)[i]; } else { assert t[i] == s[i - k]; }
      }
    }
    if |s| == 0 {
      assert t == Zeros(k);
      ZerosValue(k);
    } else {
      assert t[..|t| - 1] == Zeros(k) + s[..|s| - 1];
      LeadingZerosValue(k, s[..|s| - 1]);
    }
  }

  lemma {:induction false} ZerosValue(k: nat)
    ensures DigitsValue(Zeros(k)) == 0
  {
    if k > 0 {
      var z, y := Zeros(k), Zeros(k - 1);
      assert z[..k - 1] == y;
      ZerosValue(k - 1);
      assert DigitsValue(z) == DigitsValue(y) * 10 + (z[k - 1] as int - '0' as int);
    }
  }

  /** Padding never changes the value the digits denote. */
  lemma {:induction false} PadZerosRoundTrip(n: nat, width: nat)
    ensures DigitsValue(PadZeros(n, width)) == n
  {
    if |DecimalString(n)| < width {
      PaddedValue(n, width);
    } else {
      DecimalRoundTrip(n);
    }
  }

  lemma {:induction false} PaddedValue(n: nat, width: nat)
    requires |DecimalString(n)| < width
    ensures DigitsValue(PadZeros(n, width)) == n
  {
    var digits := DecimalString(n);
    var k := width - |digits|;
    DecimalRoundTrip(n);
    LeadingZerosValue(k, digits);
    assert PadZeros(n, width) == Zeros(k) + digits;
  }

  /** A value below 10^width fills exactly `width` characters. */
  lemma {:induction false} PadZerosWidth(n: nat, width: nat)
    requires 1 <= width && n < Pow10(width)
    ensures |PadZeros(n, width)| == width
  {
    DecimalLength(n, width);
  }
}
