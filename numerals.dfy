/** Decimal numerals: Python's str(n), f"{n:03d}" and int(digits) on
    non-negative integers written with ASCII digits. */
module Numerals {

  predicate IsDigit(c: char) {
    '0' <= c <= '9'
  }

  predicate AllDigits(s: string) {
    forall i :: 0 <= i < |s| ==> IsDigit(s[i])
  }

  function DigitChar(d: nat): (c: char)
    requires d < 10
    ensures IsDigit(c) && c as int - '0' as int == d
  {
    ('0' as int + d) as char
  }

  function DigitValue(c: char): (d: nat)
    requires IsDigit(c)
    ensures d < 10 && DigitChar(d) == c
  {
    c as int - '0' as int
  }

  /** str(n): the shortest decimal numeral of n. */
  function Decimal(n: nat): (s: string)
    ensures |s| >= 1 && AllDigits(s)
    ensures |s| > 1 ==> s[0] != '0'
    ensures |s| == 1 <==> n < 10
    decreases n
  {
    if n < 10 then [DigitChar(n)]
    else Decimal(n / 10) + [DigitChar(n % 10)]
  }

  /** int(s) for a run of ASCII digits (leading zeros allowed). */
  function ParseDecimal(s: string): nat
    requires AllDigits(s)
    decreases |s|
  {
    if s == [] then 0
    else ParseDecimal(s[..|s| - 1]) * 10 + DigitValue(s[|s| - 1])
  }

  /** int(str(n)) == n. */
  lemma {:induction false} ParseDecimalOfDecimal(n: nat)
    ensures ParseDecimal(Decimal(n)) == n
    decreases n
  {
    if n < 10 {
      assert Decimal(n)[..0] == [];
    } else {
      ParseDecimalOfDecimal(n / 10);
      var s := Decimal(n);
      assert s[..|s| - 1] == Decimal(n / 10);
    }
  }

  function Zeros(k: nat): (z: string)
    ensures |z| == k && AllDigits(z)
    ensures forall i :: 0 <= i < k ==> z[i] == '0'
  {
    seq(k, _ => '0')
  }

  /** Leading zeros do not change the value of a numeral. */
  lemma {:induction false} ParseDecimalLeadingZeros(k: nat, s: string)
    requires AllDigits(s)
    ensures ParseDecimal(Zeros(k) + s) == ParseDecimal(s)
    decreases |s|, k
  {
    if s == [] {
      if k > 0 {
        assert (Zeros(k) + s)[..k - 1] == Zeros(k - 1);
        ParseDecimalLeadingZeros(k - 1, []);
        assert Zeros(k - 1) + [] == Zeros(k - 1);
      } else {
        assert Zeros(k) + s == [];
      }
    } else {
      var t := Zeros(k) + s;
      assert t[..|t| - 1] == Zeros(k) + s[..|s| - 1];
      ParseDecimalLeadingZeros(k, s[..|s| - 1]);
    }
  }

  /** f"{n:03d}": the decimal numeral of n, left-padded with zeros to at
      least three characters. */
  function Pad3(n: nat): (s: string)
    ensures AllDigits(s) && |s| >= 3
    ensures ParseDecimal(s) == n
    ensures |s| == 3 <==> n < 1000
    ensures n >= 1000 ==> s == Decimal(n)
  {
    var d := Decimal(n);
    ParseDecimalOfDecimal(n);
    DecimalLength(n);
    if |d| < 3 then
      ParseDecimalLeadingZeros(3 - |d|, d);
      Zeros(3 - |d|) + d
    else d
  }

  lemma DecimalLength(n: nat)
    ensures |Decimal(n)| <= 3 <==> n < 1000
  {
    if n >= 10 {
      if n >= 100 {
        assert n / 10 >= 10;
        if n >= 1000 {
          assert n / 10 / 10 >= 10;
        } else {
          assert n / 10 / 10 < 10;
        }
      }
    }
  }

  /** For n below 1000, the three characters of Pad3(n) are its hundreds,
      tens and units digits. */
  lemma Pad3Digits(n: nat)
    requires n < 1000
    ensures Pad3(n) == [DigitChar(n / 100), DigitChar(n / 10 % 10), DigitChar(n % 10)]
  {
    if n >= 100 {
      assert n / 10 / 10 == n / 100;
      assert Decimal(n / 10) == [DigitChar(n / 100), DigitChar(n / 10 % 10)];
    } else if n >= 10 {
      assert Decimal(n) == [DigitChar(n / 10), DigitChar(n % 10)];
      assert Zeros(1) == ['0'];
    } else {
      assert Zeros(2) == ['0', '0'];
    }
  }
}
