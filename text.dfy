/** Decimal rendering of integers, as Python's '{}'.format(n) writes them,
    with its inverse: lock keys embed user, content and notification ids. */
module Text {

  predicate IsDigit(c: char) {
    '0' <= c <= '9'
  }

  function DigitChar(d: nat): (c: char)
    requires d < 10
    ensures IsDigit(c)
  {
    "0123456789"[d]
  }

  /** The decimal digits of n, most significant first, without leading zeros. */
  function Digits(n: nat): (s: string)
    ensures |s| > 0
    ensures forall i :: 0 <= i < |s| ==> IsDigit(s[i])
    ensures |s| > 1 ==> s[0] != '0'
    decreases n
  {
    if n < 10 then [DigitChar(n)] else Digits(n / 10) + [DigitChar(n % 10)]
  }

  /** The number a string of decimal digits denotes. */
  function ParseDigits(s: string): nat
    requires forall i :: 0 <= i < |s| ==> IsDigit(s[i])
  {
    if s == [] then 0
    else
      assert IsDigit(s[|s| - 1]);
      10 * ParseDigits(s[..|s| - 1]) + (s[|s| - 1] as int - '0' as int)
  }

  /** Python's str(n) for an int. */
  function Decimal(n: int): (s: string)
    ensures |s| > 0
    ensures forall i :: 0 <= i < |s| ==> IsDigit(s[i]) || s[i] == '-'
  {
    if n < 0 then "-" + Digits(-n) else Digits(n)
  }

  /** The inverse of Decimal on its range. */
  function ParseDecimal(s: string): int
    requires |s| > 0
    requires forall i :: 0 <= i < |s| ==> IsDigit(s[i]) || (i == 0 && s[i] == '-')
  {
    if s[0] == '-' then -(ParseDigits(s[1..]) as int) else ParseDigits(s)
  }

  lemma {:induction false} ParseDigitsInvertsDigits(n: nat)
    ensures ParseDigits(Digits(n)) == n
    decreases n
  {
    var s := Digits(n);
    if n < 10 {
      assert s == [DigitChar(n)];
      assert s[..|s| - 1] == [];
    } else {
      ParseDigitsInvertsDigits(n / 10);
      assert s[..|s| - 1] == Digits(n / 10);
      assert s[|s| - 1] == DigitChar(n % 10);
    }
  }

  /** Decimal loses nothing: parsing it back gives the number. */
  lemma {:induction false} ParseDecimalInvertsDecimal(n: int)
    ensures forall i :: 0 <= i < |Decimal(n)| ==> IsDigit(Decimal(n)[i]) || (i == 0 && Decimal(n)[i] == '-')
    ensures ParseDecimal(Decimal(n)) == n
  {
    var s := Decimal(n);
    if n < 0 {
      var d := Digits(-n);
      assert s == "-" + d;
      assert s[1..] == d;
      forall i | 0 <= i < |s| ensures IsDigit(s[i]) || (i == 0 && s[i] == '-') {
        if i > 0 { assert s[i] == d[i - 1]; }
      }
      ParseDigitsInvertsDigits(-n);
    } else {
      assert s == Digits(n);
      assert IsDigit(s[0]);
      ParseDigitsInvertsDigits(n);
    }
  }

  /** Distinct integers render as distinct strings. */
  lemma DecimalInjective(a: int, b: int)
    requires Decimal(a) == Decimal(b)
    ensures a == b
  {
    ParseDecimalInvertsDecimal(a);
    ParseDecimalInvertsDecimal(b);
  }

  /** A decimal rendering holds none of the separators the lock keys use. */
  lemma DecimalHasNo(n: int, c: char)
    requires c == '@' || c == '+' || c == '.'
    ensures c !in Decimal(n)
  {
    assert forall i :: 0 <= i < |Decimal(n)| ==> Decimal(n)[i] != c;
  }
}
