/**
  Decimal text of integers, in both directions: the text JavaScript gives an
  integer number in a template literal (`${n}`), and .NET's `int.TryParse`
  with its default number style (optional leading and trailing white space,
  an optional leading `+` or `-`, ASCII digits, and a result that must fit
  in a 32-bit signed integer).
*/
module Decimal {
  import opened Wrappers

  const INT32_MIN: int := -0x8000_0000
  const INT32_MAX: int := 0x7FFF_FFFF

  predicate IsInt32(n: int)
  {
    INT32_MIN <= n <= INT32_MAX
  }

  predicate IsDigit(c: char)
  {
    '0' <= c <= '9'
  }

  predicate AllDigits(s: string)
  {
    forall i :: 0 <= i < |s| ==> IsDigit(s[i])
  }

  function DigitChar(d: int): (c: char)
    requires 0 <= d < 10
    ensures IsDigit(c)
  {
    ('0' as int + d) as char
  }

  function DigitValue(c: char): (d: int)
    requires IsDigit(c)
    ensures 0 <= d < 10
  {
    c as int - '0' as int
  }

  /** The decimal digits of `n`, most significant first, without leading zeros. */
  function NatToDecimal(n: nat): (s: string)
    ensures s != [] && AllDigits(s)
  {
    if n < 10 then [DigitChar(n)] else NatToDecimal(n / 10) + [DigitChar(n % 10)]
  }

  /**
    The decimal text of an integer: a minus sign for negatives, then the
    digits. This is what JavaScript's `${n}` writes for every integer a
    JavaScript number holds exactly (magnitude at most 2^53, so below 10^21,
    where exponent notation would begin).
  */
  function IntToDecimal(n: int): (s: string)
    ensures s != [] && (s[0] == '-' <==> n < 0)
    ensures n >= 0 ==> AllDigits(s)
  {
    if n < 0 then "-" + NatToDecimal(-n) else NatToDecimal(n)
  }

  /** The characters `int.TryParse` skips around a number: U+0009 to U+000D and the space. */
  predicate IsWhite(c: char)
  {
    c == ' ' || '\t' <= c <= '\r'
  }

  function TrimStart(s: string): string
  {
    if s != [] && IsWhite(s[0]) then TrimStart(s[1..]) else s
  }

  function TrimEnd(s: string): string
  {
    if s != [] && IsWhite(s[|s| - 1]) then TrimEnd(s[..|s| - 1]) else s
  }

  /** The number a run of digits denotes, read most significant first. */
  function DigitsValue(s: string): nat
    requires AllDigits(s)
  {
    if s == [] then 0 else 10 * DigitsValue(s[..|s| - 1]) + DigitValue(s[|s| - 1])
  }

  /**
    `int.TryParse(text, out n)`: Some(n) when the text, white space aside, is
    an optionally signed run of digits whose value fits in 32 bits; None
    otherwise.
  */
  function ParseInt32(text: string): (r: Option<int>)
    ensures r.Some? ==> IsInt32(r.value)
  {
    var t := TrimEnd(TrimStart(text));
    var negative := t != [] && t[0] == '-';
    var digits := if t != [] && (t[0] == '-' || t[0] == '+') then t[1..] else t;
    if digits == [] || !AllDigits(digits) then None
    else
      var magnitude: int := DigitsValue(digits);
      var n := if negative then -magnitude else magnitude;
      if IsInt32(n) then Some(n) else None
  }

  /** Reading back the digits of a number gives the number. */
  lemma {:induction false} NatToDecimalValue(n: nat)
    ensures DigitsValue(NatToDecimal(n)) == n
  {
    if n >= 10 {
      var s := NatToDecimal(n);
      assert s[..|s| - 1] == NatToDecimal(n / 10);
      NatToDecimalValue(n / 10);
    }
  }

  /** `int.TryParse` reads back exactly the integer `${n}` wrote when it fits in 32 bits, and fails otherwise. */
  lemma ParseInt32OfDecimal(n: int)
    ensures ParseInt32(IntToDecimal(n)) == if IsInt32(n) then Some(n) else None
  {
    var s := IntToDecimal(n);
    var digits := NatToDecimal(if n < 0 then -n else n);
    assert !IsWhite(s[0]) && !IsWhite(s[|s| - 1]);
    assert TrimStart(s) == s;
    assert TrimEnd(s) == s;
    NatToDecimalValue(if n < 0 then -n else n);
    if n < 0 {
      assert s[1..] == digits;
    } else {
      assert s[0] != '-' && s[0] != '+';
    }
  }

  /** Different integers are written differently. */
  lemma IntToDecimalInjective(m: int, n: int)
    requires IntToDecimal(m) == IntToDecimal(n)
    ensures m == n
  {
    var s := IntToDecimal(m);
    if m < 0 {
      assert s[0] == '-';
      assert n < 0;
      assert NatToDecimal(-m) == s[1..] == NatToDecimal(-n);
    } else {
      assert IsDigit(s[0]);
      assert n >= 0;
    }
    NatToDecimalValue(if m < 0 then -m else m);
    NatToDecimalValue(if n < 0 then -n else n);
  }
}
