/**
 * Decimal text of non-negative integers: `Number.prototype.toString` and
 * `padStart(2, '0')` as the formatters use them, with a digit-string reader
 * as the partner that proves the text can be read back.
 */
module Decimal {

  predicate IsDigit(c: char) {
    '0' <= c <= '9'
  }

  predicate AllDigits(s: string) {
    forall i :: 0 <= i < |s| ==> IsDigit(s[i])
  }

  function DigitValue(c: char): nat
    requires IsDigit(c)
  {
    c as int - '0' as int
  }

  function DigitChar(d: nat): (c: char)
    requires d < 10
    ensures IsDigit(c) && DigitValue(c) == d
  {
    ('0' as int + d) as char
  }

  /** The number a digit string denotes (most significant digit first). */
  function Value(s: string): nat
    requires AllDigits(s)
  {
    if s == [] then 0 else 10 * Value(s[..|s| - 1]) + DigitValue(s[|s| - 1])
  }

  /** Decimal text without sign, leading zeros or separators. */
  function NatToString(n: nat): string
  {
    if n < 10 then [DigitChar(n)] else NatToString(n / 10) + [DigitChar(n % 10)]
  }

  /** The shape `toString` gives: one or more digits, no leading zero. */
  predicate Canonical(s: string) {
    |s| >= 1 && AllDigits(s) && (s[0] == '0' ==> |s| == 1)
  }

  /** Reading back what `NatToString` writes gives the number, and the text is canonical. */
  lemma {:induction false} NatToStringValue(n: nat)
    ensures Canonical(NatToString(n)) && Value(NatToString(n)) == n
  {
    if n >= 10 {
      NatToStringValue(n / 10);
      var p := NatToString(n / 10);
      var s := p + [DigitChar(n % 10)];
      assert s[..|s| - 1] == p;
      assert s[0] == p[0];
      assert |p| == 1 ==> Value(p) == DigitValue(p[0]) by {
        assert |p| == 1 ==> p[..0] == [];
      }
    }
  }

  /** A digit string with a non-zero first digit denotes a positive number. */
  lemma {:induction false} ValuePositive(s: string)
    requires |s| >= 1 && AllDigits(s) && s[0] != '0'
    ensures Value(s) >= 1
  {
    if |s| > 1 {
      var p := s[..|s| - 1];
      assert p[0] == s[0];
      ValuePositive(p);
    }
  }

  /** Writing the number a canonical string denotes gives that string back. */
  lemma {:induction false} ValueNatToString(s: string)
    requires Canonical(s)
    ensures NatToString(Value(s)) == s
  {
    var p := s[..|s| - 1];
    var d := DigitValue(s[|s| - 1]);
    if |s| == 1 {
      assert Value(s) == d;
      assert s == [DigitChar(d)];
    } else {
      assert p[0] == s[0];
      ValuePositive(p);
      ValueNatToString(p);
      assert Value(s) / 10 == Value(p) && Value(s) % 10 == d;
      assert DigitChar(d) == s[|s| - 1];
      assert s == p + [s[|s| - 1]];
    }
  }

  /** `padStart(2, '0')`: left-pads with zeros up to two characters. */
  function PadStart2(s: string): string
  {
    if |s| == 0 then "00" else if |s| == 1 then "0" + s else s
  }

  /** A number below 100, written and padded, is exactly two digits that read back as it. */
  lemma TwoDigitsValue(n: nat)
    requires n < 100
    ensures |PadStart2(NatToString(n))| == 2 && AllDigits(PadStart2(NatToString(n)))
    ensures Value(PadStart2(NatToString(n))) == n
  {
    NatToStringValue(n);
    var s := NatToString(n);
    if n < 10 {
      var t := PadStart2(s);
      assert t == ['0', DigitChar(n)];
      assert t[..1] == ['0'];
    } else {
      assert s == NatToString(n / 10) + [DigitChar(n % 10)];
    }
  }

  /** Every two-digit string is the padded text of the number it denotes. */
  lemma TwoDigitsText(s: string)
    requires |s| == 2 && AllDigits(s)
    ensures PadStart2(NatToString(Value(s))) == s
  {
    assert s[..1] == [s[0]];
    if s[0] == '0' {
      assert s[..1][..0] == [];
      assert Value(s[..1]) == 10 * Value(s[..1][..0]) + DigitValue(s[..1][0]);
      assert s[..|s| - 1] == s[..1];
      assert Value(s) == 10 * Value(s[..1]) + DigitValue(s[1]);
      assert Value(s) == DigitValue(s[1]);
      assert NatToString(Value(s)) == [s[1]];
    } else {
      ValueNatToString(s);
    }
  }

  /** One digit below ten, two digits from ten to ninety-nine. */
  lemma NatToStringLength(n: nat)
    requires n < 100
    ensures |NatToString(n)| == if n < 10 then 1 else 2
  {
  }

  lemma MulAtLeastDivisor(k: int, d: int)
    requires d > 0
    ensures k >= 1 ==> k * d >= d
    ensures k <= -1 ==> k * d <= -d
  {
  }

  /** Euclidean division is determined by quotient and remainder. */
  lemma DivModUnique(n: int, d: int, q: int, r: int)
    requires d > 0 && n == q * d + r && 0 <= r < d
    ensures n / d == q && n % d == r
  {
    var q', r' := n / d, n % d;
    assert n == q' * d + r';
    var k := q - q';
    assert k * d == q * d - q' * d;
    assert k * d == r' - r;
    MulAtLeastDivisor(k, d);
  }
}
