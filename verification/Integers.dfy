/** March's integer builtins: division truncating toward zero, and the decimal text of
    an integer with its inverse. */
module Integers {
  import opened Options

  type byte = x: int | 0 <= x < 256

  function Abs(n: int): nat {
    if n < 0 then -n else n
  }

  /** The quotient truncated toward zero. */
  function IntDiv(a: int, b: int): int
    requires b != 0
  {
    if a >= 0 then if b > 0 then a / b else -(a / -b)
    else if b > 0 then -(-a / b) else -a / -b
  }

  /** The remainder of `IntDiv`; it has the dividend's sign. */
  function IntMod(a: int, b: int): int
    requires b != 0
  {
    if a >= 0 then a % b else -(-a % b)
  }

  function Power(b: int, n: nat): int {
    if n == 0 then 1 else b * Power(b, n - 1)
  }

  function DigitChar(d: int): char
    requires 0 <= d < 10
  {
    '0' + d as char
  }

  function DigitOf(c: char): int {
    c as int - '0' as int
  }

  /** The decimal digits of a natural number. */
  function Decimal(n: nat): string {
    if n < 10 then [DigitChar(n)] else Decimal(n / 10) + [DigitChar(n % 10)]
  }

  function IntToString(n: int): string {
    if n < 0 then "-" + Decimal(-n) else Decimal(n)
  }

  predicate AllDigits(s: string) {
    forall i :: 0 <= i < |s| ==> '0' <= s[i] <= '9'
  }

  function DigitsValue(s: string): int {
    if s == "" then 0 else 10 * DigitsValue(s[..|s| - 1]) + DigitOf(s[|s| - 1])
  }

  /** An optional sign and at least one decimal digit; anything else is `None`. */
  function StringToInt(s: string): Option<int> {
    var signed := s != "" && (s[0] == '-' || s[0] == '+');
    var body := if signed then s[1..] else s;
    if body == "" || !AllDigits(body) then None
    else Some(if signed && s[0] == '-' then -DigitsValue(body) else DigitsValue(body))
  }

  lemma {:induction false} DecimalIs(n: nat)
    ensures Decimal(n) != "" && AllDigits(Decimal(n)) && DigitsValue(Decimal(n)) == n
    ensures Decimal(n)[0] == '0' ==> n == 0 && |Decimal(n)| == 1
  {
    if n >= 10 {
      DecimalIs(n / 10);
      assert Decimal(n)[..|Decimal(n)| - 1] == Decimal(n / 10);
    } else {
      assert Decimal(n)[..0] == "";
    }
  }

  /** Reading back what was printed. */
  lemma IntStringRoundTrip(n: int)
    ensures StringToInt(IntToString(n)) == Some(n)
  {
    DecimalIs(Abs(n));
    if n < 0 { assert IntToString(n)[1..] == Decimal(-n); }
  }
}
