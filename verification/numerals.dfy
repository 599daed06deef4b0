/**
 * Decimal rendering of integers as the backend's format strings produce it:
 * `str(n)` for quantities, `{n:06d}` for order numbers and `{x:.2f}` for
 * money amounts held in minor units (cents).
 */
module Numerals {

  predicate IsDigit(c: char) {
    '0' <= c <= '9'
  }

  predicate AllDigits(s: string) {
    forall i :: 0 <= i < |s| ==> IsDigit(s[i])
  }

  function DigitChar(d: nat): (c: char)
    requires d < 10
    ensures IsDigit(c) && c as int - '0' as int == d
  {
    ('0' as int + d) as char
  }

  /** The number a string of decimal digits denotes (most significant first). */
  function DigitsValue(s: string): nat
    requires AllDigits(s)
  {
    if |s| == 0 then 0
    else DigitsValue(s[..|s| - 1]) * 10 + (s[|s| - 1] as int - '0' as int)
  }

  function Pow10(k: nat): (p: nat)
    ensures p >= 1
  {
    if k == 0 then 1 else 10 * Pow10(k - 1)
  }

  /** `k` zero characters. */
  function Zeros(k: nat): (z: string)
    ensures |z| == k && AllDigits(z)
    ensures forall i :: 0 <= i < k ==> z[i] == '0'
  {
    seq(k, _ => '0')
  }

  /** Python's `str(n)` for a non-negative integer: shortest decimal form. */
  function NatToString(n: nat): (s: string)
    ensures 1 <= |s| && AllDigits(s)
    ensures DigitsValue(s) == n
    ensures |s| > 1 ==> s[0] != '0'
  {
    if n < 10 then [DigitChar(n)]
    else
      var prefix := NatToString(n / 10);
      var s := prefix + [DigitChar(n % 10)];
      assert s[..|s| - 1] == prefix;
      s
  }

  /** Appending digits shifts the value of the prefix by the suffix's width. */
  lemma {:induction false} DigitsValueAppend(a: string, b: string)
    requires AllDigits(a) && AllDigits(b)
    ensures AllDigits(a + b)
    ensures DigitsValue(a + b) == DigitsValue(a) * Pow10(|b|) + DigitsValue(b)
    decreases |b|
  {
    var ab := a + b;
    assert AllDigits(ab) by {
      forall i | 0 <= i < |ab| ensures IsDigit(ab[i]) {
        if i < |a| { assert ab[i] == a[i]; } else { assert ab[i] == b[i - |a|]; }
      }
    }
    if |b| == 0 {
      assert ab == a;
    } else {
      var b' := b[..|b| - 1];
      var c := b[|b| - 1] as int - '0' as int;
      assert ab[..|ab| - 1] == a + b';
      assert ab[|ab| - 1] == b[|b| - 1];
      DigitsValueAppend(a, b');
      ShiftDigit(DigitsValue(a), Pow10(|b'|), DigitsValue(b'), c);
    }
  }

  lemma ShiftDigit(x: int, p: int, y: int, c: int)
    ensures (x * p + y) * 10 + c == x * (10 * p) + (y * 10 + c)
  {
  }

  lemma {:induction false} ZerosValue(k: nat)
    ensures DigitsValue(Zeros(k)) == 0
  {
    if k > 0 {
      assert Zeros(k)[..k - 1] == Zeros(k - 1);
      ZerosValue(k - 1);
    }
  }

  /** Python's `{n:0wd}`: `n` in decimal, left-padded with zeros to at least `width` characters. */
  function ZeroPad(n: nat, width: nat): (s: string)
    ensures AllDigits(s) && DigitsValue(s) == n
    ensures |s| == if |NatToString(n)| < width then width else |NatToString(n)|
    ensures |s| > width ==> s == NatToString(n)
  {
    var digits := NatToString(n);
    var pad := if |digits| < width then width - |digits| else 0;
    DigitsValueAppend(Zeros(pad), digits);
    ZerosValue(pad);
    Zeros(pad) + digits
  }

  /** Python's `str(i)` for any integer: a minus sign before the magnitude when negative. */
  function IntToString(i: int): (s: string)
    ensures 1 <= |s|
    ensures s[0] == '-' <==> i < 0
    ensures var digits := if i < 0 then s[1..] else s;
      && AllDigits(digits) && DigitsValue(digits) == (if i < 0 then -i else i)
      && (|digits| > 1 ==> digits[0] != '0')
  {
    if i < 0 then
      var digits := NatToString(-i);
      var s := "-" + digits;
      assert s[1..] == digits;
      s
    else NatToString(i)
  }

  /** `str(i)` is made of decimal digits and at most a leading minus sign. */
  lemma IntToStringChars(i: int)
    ensures forall k :: 0 <= k < |IntToString(i)| ==> IsDigit(IntToString(i)[k]) || (k == 0 && IntToString(i)[k] == '-')
  {
    var s := IntToString(i);
    var digits := if i < 0 then s[1..] else s;
    forall k | 0 <= k < |s| && !(k == 0 && i < 0) ensures IsDigit(s[k]) {
      if i < 0 {
        assert s[k] == digits[k - 1];
      }
    }
  }

  /**
   * Python's `{x:.2f}` for an amount of `cents` minor units: an optional minus
   * sign, the whole units, a point and exactly two digits of cents.
   */
  function FormatCents(cents: int): (s: string)
    ensures 4 <= |s| && s[|s| - 3] == '.'
    ensures s[0] == '-' <==> cents < 0
    ensures var whole := s[(if cents < 0 then 1 else 0)..|s| - 3];
      var frac := s[|s| - 2..];
      && 1 <= |whole| && AllDigits(whole) && AllDigits(frac)
      && DigitsValue(whole) * 100 + DigitsValue(frac) == (if cents < 0 then -cents else cents)
      && (|whole| > 1 ==> whole[0] != '0')
  {
    var magnitude := if cents < 0 then -cents else cents;
    var whole := NatToString(magnitude / 100);
    var cent := magnitude % 100;
    var frac := [DigitChar(cent / 10), DigitChar(cent % 10)];
    assert frac[..1][..0] == [];
    assert DigitsValue(frac[..1]) == cent / 10;
    assert DigitsValue(frac) == cent;
    var sign := if cents < 0 then "-" else "";
    var s := sign + whole + "." + frac;
    assert s[|sign|..|s| - 3] == whole;
    assert s[|s| - 2..] == frac;
    s
  }

  /** A non-zero leading digit puts a decimal string's value at or above its width's power of ten. */
  lemma DigitsValueLowerBound(s: string)
    requires 1 <= |s| && AllDigits(s) && s[0] != '0'
    ensures DigitsValue(s) >= Pow10(|s| - 1)
  {
    DigitsValueAppend(s[..1], s[1..]);
    assert s[..1] + s[1..] == s;
    assert s[..1][..0] == [];
  }

  /** Numbers below `10^k` take at most `k` digits. */
  lemma NatToStringLength(n: nat, k: nat)
    ensures 1 <= k && n < Pow10(k) ==> |NatToString(n)| <= k
  {
    var s := NatToString(n);
    if 1 <= k && n < Pow10(k) && |s| > k {
      DigitsValueLowerBound(s);
      Pow10Monotone(k, |s| - 1);
    }
  }

  lemma {:induction false} Pow10Monotone(a: nat, b: nat)
    requires a <= b
    ensures Pow10(a) <= Pow10(b)
    decreases b
  {
    if a < b {
      Pow10Monotone(a, b - 1);
    }
  }
}
