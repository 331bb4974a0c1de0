/** Decimal printing, as std::to_chars, std::to_string and operator<< do it for integers, and
    reading, as std::from_chars does. */
module Decimals {
  import opened JsonGrammar

  function Digit(d: nat): (c: char)
    requires d < 10
    ensures IsDigit(c)
  {
    ('0' as int + d) as char
  }

  function DigitValue(c: char): (d: nat)
    requires IsDigit(c)
    ensures d < 10
  {
    c as int - '0' as int
  }

  function Decimal(n: nat): (s: string)
    ensures |s| > 0 && AllDigits(s)
    ensures s[0] == '0' ==> n == 0 && |s| == 1
  {
    if n < 10 then [Digit(n)] else Decimal(n / 10) + [Digit(n % 10)]
  }

  function DigitsValue(s: string): nat
    requires AllDigits(s)
  {
    if s == [] then 0 else DigitsValue(s[..|s| - 1]) * 10 + DigitValue(s[|s| - 1])
  }

  lemma {:induction false} DecimalReadsBack(n: nat)
    ensures DigitsValue(Decimal(n)) == n
  {
    var s := Decimal(n);
    if n >= 10 {
      assert s[..|s| - 1] == Decimal(n / 10);
      DecimalReadsBack(n / 10);
    } else {
      assert s[..0] == [];
    }
  }

  /** A signed integer. */
  function Signed(n: int): (s: string)
    ensures |s| > 0
  {
    if n < 0 then "-" + Decimal(-n) else Decimal(n)
  }

  function IntegerToken(n: int): (r: Number)
    ensures ValidNumber(r)
    ensures NumberText(r) == Signed(n)
  {
    var r := Number(n < 0, Decimal(if n < 0 then -n else n), "", NoExponent);
    assert NumberText(r) == Signed(n);
    r
  }

  /** The value of an optional minus and digits. */
  function SignedValue(s: string): int
    requires s != [] && AllDigits(if s[0] == '-' then s[1..] else s)
  {
    if s[0] == '-' then 0 - DigitsValue(s[1..]) else DigitsValue(s)
  }

  lemma SignedReadsBack(n: int)
    ensures var s := Signed(n);
            AllDigits(if s[0] == '-' then s[1..] else s) && SignedValue(s) == n
  {
    hide Decimal, DigitsValue;
    if n < 0 {
      assert Signed(n)[1..] == Decimal(-n);
      DecimalReadsBack(-n);
    } else {
      assert Signed(n) == Decimal(n);
      DecimalReadsBack(n);
    }
  }
}
