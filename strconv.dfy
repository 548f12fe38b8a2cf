/** Decimal integer syntax of route parameters: Go's `strconv.Atoi` on a
    64-bit platform (an optional sign, at least one ASCII digit, and a value
    that fits in `int`), with the decimal rendering it inverts. */
module Strconv {
  import opened Domain

  const MaxInt: int := 0x7fff_ffff_ffff_ffff
  const MinInt: int := -0x8000_0000_0000_0000

  predicate IsDigit(c: char)
  {
    '0' <= c <= '9'
  }

  predicate AllDigits(s: string)
  {
    forall i :: 0 <= i < |s| ==> IsDigit(s[i])
  }

  /** The value of a string of decimal digits, most significant first. */
  function DigitsValue(s: string): nat
    requires AllDigits(s)
  {
    if |s| == 0 then 0
    else DigitsValue(s[..|s| - 1]) * 10 + (s[|s| - 1] as int - '0' as int)
  }

  /** `strconv.Atoi`: `None` for a syntax or range error. */
  function Atoi(s: string): Option<int>
  {
    var unsigned := if |s| > 0 && (s[0] == '-' || s[0] == '+') then s[1..] else s;
    if |unsigned| == 0 || !AllDigits(unsigned) then None
    else
      var n: int := if s[0] == '-' then 0 - DigitsValue(unsigned) as int else DigitsValue(unsigned);
      if MinInt <= n <= MaxInt then Some(n) else None
  }

  /** The shortest decimal rendering of a natural number (`strconv.Itoa`). */
  function Decimal(n: nat): string
  {
    if n < 10 then [('0' as int + n) as char]
    else Decimal(n / 10) + [('0' as int + n % 10) as char]
  }

  lemma {:induction false} DecimalValue(n: nat)
    ensures |Decimal(n)| > 0 && AllDigits(Decimal(n)) && DigitsValue(Decimal(n)) == n
  {
    if n >= 10 {
      DecimalValue(n / 10);
      var s := Decimal(n);
      assert s[..|s| - 1] == Decimal(n / 10);
    }
  }

  /** Rendering then parsing gives back every `int`, negative ones included,
      and refuses every value outside the 64-bit range. */
  lemma AtoiDecimal(n: nat)
    ensures n <= MaxInt ==> Atoi(Decimal(n)) == Some(n)
    ensures n <= MaxInt + 1 ==> Atoi("-" + Decimal(n)) == Some(-(n as int))
    ensures n > MaxInt ==> Atoi(Decimal(n)).None?
    ensures n > MaxInt + 1 ==> Atoi("-" + Decimal(n)).None?
  {
    DecimalValue(n);
    assert ("-" + Decimal(n))[1..] == Decimal(n);
  }

  /** Text that is empty, a bare sign, or holds a non-digit is not a number. */
  lemma AtoiRejectsNonNumeric(s: string, k: nat)
    requires k < |s| && !IsDigit(s[k]) && !(k == 0 && (s[0] == '-' || s[0] == '+'))
    ensures Atoi(s).None? && Atoi("").None? && Atoi("-").None? && Atoi("+").None?
  {
    var unsigned := if |s| > 0 && (s[0] == '-' || s[0] == '+') then s[1..] else s;
    if s[0] == '-' || s[0] == '+' {
      assert unsigned[k - 1] == s[k];
    }
  }
}
