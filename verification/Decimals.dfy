/** Fixed-point decimals (assets/stdlib/decimal.js): a coefficient and a scale stand for
    coefficient / 10^scale. The reference is real arithmetic. Scales are unrestricted
    integers: rounding to a negative number of places leaves one below zero. */
module Decimals {
  import opened Options
  import opened Integers

  datatype Decimal = Decimal(coef: int, scale: int)

  // ---------------------------------------------------------------- the source's arithmetic

  function Pow10Go(b: int, e: int, acc: int): int
    decreases e
  {
    if e <= 0 then acc
    else if e % 2 == 1 then Pow10Go(b * b, e / 2, acc * b)
    else Pow10Go(b * b, e / 2, acc)
  }

  function Pow10(n: int): int {
    Pow10Go(10, n, 1)
  }

  function ScaleUp(coef: int, n: int): int {
    if n <= 0 then coef else coef * Pow10(n)
  }

  function Align(a: Decimal, b: Decimal): (int, int, int) {
    if a.scale == b.scale then (a.coef, b.coef, a.scale)
    else if a.scale > b.scale then (a.coef, ScaleUp(b.coef, a.scale - b.scale), a.scale)
    else (ScaleUp(a.coef, b.scale - a.scale), b.coef, b.scale)
  }

  function Add(a: Decimal, b: Decimal): Decimal {
    var (ca, cb, s) := Align(a, b);
    Decimal(ca + cb, s)
  }

  function Sub(a: Decimal, b: Decimal): Decimal {
    var (ca, cb, s) := Align(a, b);
    Decimal(ca - cb, s)
  }

  function Mul(a: Decimal, b: Decimal): Decimal {
    Decimal(a.coef * b.coef, a.scale + b.scale)
  }

  /** `None` is the panic on a zero divisor. */
  function Div(a: Decimal, b: Decimal, precision: int): Option<Decimal> {
    if b.coef == 0 then None
    else Some(Decimal(IntDiv(ScaleUp(a.coef, precision + b.scale), b.coef), a.scale + precision))
  }

  function RoundCoef(coef: int, divisor: int, half: int): int
    requires divisor > 0 && half > 0
  {
    var firstDropped := IntDiv(IntMod(Abs(coef), divisor), half);
    var quotient := IntDiv(coef, divisor);
    if firstDropped >= 5 then if coef < 0 then quotient - 1 else quotient + 1
    else quotient
  }

  function Round(d: Decimal, places: int): Decimal {
    if d.scale <= places then d
    else
      Pow10Is(d.scale - places);
      Pow10Is(d.scale - places - 1);
      Decimal(RoundCoef(d.coef, Pow10(d.scale - places), Pow10(d.scale - places - 1)), places)
  }

  function DivRound(a: Decimal, b: Decimal, precision: int): Option<Decimal> {
    var quotient :- Div(a, b, precision + 1);
    Some(Round(quotient, precision))
  }

  function Compare(a: Decimal, b: Decimal): int {
    var (ca, cb, _) := Align(a, b);
    if ca < cb then -1 else if ca > cb then 1 else 0
  }

  // ---------------------------------------------------------------- text

  function FindDot(chars: string, pos: nat): Option<nat> {
    if chars == "" then None
    else if chars[0] == '.' then Some(pos)
    else FindDot(chars[1..], pos + 1)
  }

  lemma {:induction false} FindDotIs(chars: string, pos: nat)
    ensures FindDot(chars, pos).Some? <==> '.' in chars
    ensures var r := FindDot(chars, pos);
            r.Some? ==> pos <= r.value < pos + |chars| && chars[r.value - pos] == '.' && '.' !in chars[..r.value - pos]
  {
    if chars != "" && chars[0] != '.' {
      FindDotIs(chars[1..], pos + 1);
      var r := FindDot(chars, pos);
      if r.Some? {
        var k := r.value - pos;
        assert chars[..k] == [chars[0]] + chars[1..][..k - 1];
      }
    }
  }

  function IntOrZero(s: string): int {
    match StringToInt(s)
    case Some(n) => n
    case None => 0
  }

  function FromString(s: string): Decimal {
    match FindDot(s, 0)
    case None => Decimal(IntOrZero(s), 0)
    case Some(dot) =>
      FindDotIs(s, 0);
      var intPart := s[..dot];
      var fracPart := s[dot + 1..];
      var combined := if intPart == "-" then "-" + fracPart
                      else if intPart == "" then fracPart
                      else intPart + fracPart;
      Decimal(IntOrZero(combined), |s| - dot - 1)
  }

  function Pad(n: int, s: string): (r: string)
    ensures |r| == |s| + if n > 0 then n else 0
    decreases n
  {
    if n <= 0 then s else Pad(n - 1, "0" + s)
  }

  /** The digits `s` with a dot before the last `scale` of them, zeros added on the left
      until one digit stands before the dot. */
  function PlaceDot(s: string, scale: nat): string {
    if |s| <= scale then
      var padded := Pad(scale - |s| + 1, s);
      padded[..1] + "." + padded[1..]
    else
      s[..|s| - scale] + "." + s[|s| - scale..]
  }

  function ToString(d: Decimal): string
    requires d.scale >= 0
  {
    var coefStr := IntToString(d.coef);
    if d.scale == 0 then coefStr
    else if d.coef < 0 then "-" + PlaceDot(coefStr[1..], d.scale)
    else PlaceDot(coefStr, d.scale)
  }

  // ---------------------------------------------------------------- powers of ten

  lemma {:induction false} PowerSquare(b: int, n: nat)
    ensures Power(b * b, n) == Power(b, 2 * n)
  {
    if n > 0 {
      PowerSquare(b, n - 1);
      var h := Power(b, 2 * (n - 1));
      assert Power(b, 2 * n - 1) == b * h;
      Reassociate(b, b, h);
    }
  }

  lemma {:induction false} Pow10GoIs(b: int, e: nat, acc: int)
    ensures Pow10Go(b, e, acc) == acc * Power(b, e)
    decreases e
  {
    if e > 0 {
      var h := Power(b * b, e / 2);
      PowerSquare(b, e / 2);
      if e % 2 == 1 {
        Pow10GoIs(b * b, e / 2, acc * b);
        assert Power(b, e) == b * h;
        Reassociate(acc, b, h);
      } else {
        Pow10GoIs(b * b, e / 2, acc);
      }
    }
  }

  lemma Reassociate(x: int, y: int, z: int)
    ensures (x * y) * z == x * (y * z)
  {
  }

  lemma {:induction false} PowerPositive(n: nat)
    ensures Power(10, n) > 0
  {
    if n > 0 { PowerPositive(n - 1); }
  }

  /** Squaring computes the power of ten; a negative exponent gives one. */
  lemma Pow10Is(n: int)
    ensures Pow10(n) == Power(10, if n < 0 then 0 else n) > 0
  {
    PowerPositive(if n < 0 then 0 else n);
    if n >= 0 { Pow10GoIs(10, n, 1); }
  }

  // ---------------------------------------------------------------- values

  /** `x` with its decimal point moved `n` places to the right. */
  ghost function Shift(x: real, n: int): real
    decreases if n < 0 then -n else n
  {
    if n == 0 then x else if n > 0 then 10.0 * Shift(x, n - 1) else Shift(x, n + 1) / 10.0
  }

  ghost function Value(d: Decimal): real {
    Shift(d.coef as real, -d.scale)
  }

  lemma ShiftStep(x: real, n: int)
    ensures Shift(x, n + 1) == 10.0 * Shift(x, n)
  {
  }

  lemma {:induction false} ShiftShift(x: real, m: int, n: int)
    ensures Shift(Shift(x, m), n) == Shift(x, m + n)
    decreases if n < 0 then -n else n
  {
    if n > 0 {
      ShiftShift(x, m, n - 1);
      ShiftStep(x, m + n - 1);
    } else if n < 0 {
      ShiftShift(x, m, n + 1);
      ShiftStep(x, m + n);
    }
  }

  lemma {:induction false} ShiftSum(x: real, y: real, n: int)
    ensures Shift(x + y, n) == Shift(x, n) + Shift(y, n)
    ensures Shift(x - y, n) == Shift(x, n) - Shift(y, n)
    decreases if n < 0 then -n else n
  {
    if n > 0 { ShiftSum(x, y, n - 1); }
    if n < 0 { ShiftSum(x, y, n + 1); }
  }

  lemma {:induction false} ShiftOrder(x: real, y: real, n: int)
    ensures Shift(x, n) < Shift(y, n) <==> x < y
    decreases if n < 0 then -n else n
  {
    if n > 0 { ShiftOrder(x, y, n - 1); }
    if n < 0 { ShiftOrder(x, y, n + 1); }
  }

  lemma TenTimes(x: real, y: real, z: real)
    requires 10.0 * x == z
    ensures x * y == (z * y) / 10.0
  {
  }

  lemma {:induction false} ShiftFactor(x: real, y: real, n: int)
    ensures Shift(x * y, n) == Shift(x, n) * y
    decreases if n < 0 then -n else n
  {
    if n > 0 {
      ShiftFactor(x, y, n - 1);
      TenTimes(Shift(x, n - 1), y, Shift(x, n));
    } else if n < 0 {
      ShiftFactor(x, y, n + 1);
      TenTimes(Shift(x, n), y, Shift(x, n + 1));
    }
  }

  lemma ShiftMultiple(x: real, y: real, n: int, z: real)
    requires z == y * x
    ensures Shift(z, n) == y * Shift(x, n)
  {
    Commute(x, y);
    ShiftFactor(x, y, n);
    Commute(Shift(x, n), y);
  }

  lemma Commute(x: real, y: real)
    ensures x * y == y * x
  {
  }

  lemma ShiftProduct(x: real, y: real, m: int, n: int)
    ensures Shift(x * y, m + n) == Shift(x, m) * Shift(y, n)
  {
    var u, z := Shift(x, m), x * y;
    ShiftFactor(x, y, m);
    assert Shift(z, m) == u * y;
    ShiftShift(z, m, n);
    ShiftMultiple(y, u, n, Shift(z, m));
  }

  lemma ShiftProductIs(z: real, x: real, y: real, m: int, n: int)
    requires z == x * y
    ensures Shift(z, m + n) == Shift(x, m) * Shift(y, n)
  {
    ShiftProduct(x, y, m, n);
  }

  lemma {:induction false} PowerShift(c: int, n: nat)
    ensures (c * Power(10, n)) as real == Shift(c as real, n)
  {
    if n > 0 {
      PowerShift(c, n - 1);
      var h := Power(10, n - 1);
      assert c * (10 * h) == 10 * (c * h);
    }
  }

  lemma ScaleUpIs(coef: int, n: int)
    requires n >= 0
    ensures ScaleUp(coef, n) as real == Shift(coef as real, n)
  {
    Pow10Is(n);
    PowerShift(coef, n);
  }

  /** Padding a coefficient with zeros does not change its value. */
  lemma ScaledValue(c: int, scale: int, up: int)
    requires up >= scale
    ensures Value(Decimal(ScaleUp(c, up - scale), up)) == Value(Decimal(c, scale))
  {
    ScaleUpIs(c, up - scale);
    ShiftShift(c as real, up - scale, -up);
  }

  lemma AlignIs(a: Decimal, b: Decimal)
    ensures var (ca, cb, s) := Align(a, b);
            && s == (if a.scale > b.scale then a.scale else b.scale)
            && Value(Decimal(ca, s)) == Value(a) && Value(Decimal(cb, s)) == Value(b)
  {
    var (ca, cb, s) := Align(a, b);
    ScaledValue(a.coef, a.scale, s);
    ScaledValue(b.coef, b.scale, s);
    assert ca == ScaleUp(a.coef, s - a.scale);
    assert cb == ScaleUp(b.coef, s - b.scale);
  }

  /** Addition and subtraction are exact, at the larger of the two scales. */
  lemma AddSubExact(a: Decimal, b: Decimal)
    ensures Value(Add(a, b)) == Value(a) + Value(b)
    ensures Value(Sub(a, b)) == Value(a) - Value(b)
    ensures Add(a, b).scale == Sub(a, b).scale == if a.scale > b.scale then a.scale else b.scale
  {
    AlignIs(a, b);
    var (ca, cb, s) := Align(a, b);
    ShiftSum(ca as real, cb as real, -s);
  }

  lemma MulExact(a: Decimal, b: Decimal)
    ensures Value(Mul(a, b)) == Value(a) * Value(b)
  {
    ProductReal(a.coef, b.coef);
    ShiftProductIs((a.coef * b.coef) as real, a.coef as real, b.coef as real, -a.scale, -b.scale);
  }

  lemma ProductReal(a: int, b: int)
    ensures (a * b) as real == a as real * b as real
  {
  }

  /** `compare` orders decimals by value alone: it is a total order in which two scales of
      one value are equal. */
  lemma CompareIs(a: Decimal, b: Decimal)
    ensures Compare(a, b) == if Value(a) < Value(b) then -1 else if Value(a) > Value(b) then 1 else 0
  {
    AlignIs(a, b);
    var (ca, cb, s) := Align(a, b);
    ShiftOrder(ca as real, cb as real, -s);
    ShiftOrder(cb as real, ca as real, -s);
  }

  // ---------------------------------------------------------------- division and rounding

  ghost function Magnitude(x: real): real {
    if x < 0.0 then -x else x
  }

  ghost predicate SameSide(x: real, n: int) {
    (n > 0 ==> x > 0.0) && (n < 0 ==> x < 0.0)
  }

  /** `n` is `x` truncated toward zero. */
  ghost predicate TruncatesTo(x: real, n: int) {
    SameSide(x, n) && Abs(n) as real <= Magnitude(x) < (Abs(n) + 1) as real
  }

  /** `n` is `x` rounded to the nearest integer, halves away from zero. */
  ghost predicate RoundsTo(x: real, n: int) {
    SameSide(x, n) && Abs(n) as real <= Magnitude(x) + 0.5 < (Abs(n) + 1) as real
  }

  lemma RoundsToUnique(x: real, m: int, n: int)
    requires RoundsTo(x, m) && RoundsTo(x, n)
    ensures m == n
  {
  }

  /** The quotient `q` of magnitudes, exactly: n == q * d + r. */
  lemma QuotientReal(n: nat, d: nat)
    requires d > 0
    ensures (n / d) as real <= n as real / d as real < (n / d + 1) as real
  {
    var q := n / d;
    assert q * d <= n < q * d + d;
    ProductReal(q, d);
    ProductReal(q + 1, d);
  }

  lemma QuotientSign(n: int, d: int)
    requires d != 0
    ensures Magnitude(n as real / d as real) == Abs(n) as real / Abs(d) as real
    ensures (n as real / d as real > 0.0) <==> (n > 0 && d > 0) || (n < 0 && d < 0)
    ensures n as real / d as real == 0.0 <==> n == 0
  {
  }

  lemma QuotientUnshifted(va: real, vb: real, y: real, k: int)
    requires vb != 0.0 && Shift(y, k) * vb == va
    ensures Shift(va / vb, -k) == y
  {
    DivideBack(va, vb, Shift(y, k));
    ShiftShift(y, k, -k);
  }

  lemma DivideBack(va: real, vb: real, z: real)
    requires vb != 0.0 && z * vb == va
    ensures va / vb == z
  {
  }

  /** The real quotient, shifted to the places `Div` keeps. */
  lemma QuotientShift(a: Decimal, b: Decimal, p: int, n: real, y: real)
    requires b.coef != 0 && n == Shift(a.coef as real, p + b.scale) && n == y * b.coef as real
    ensures Value(b) != 0.0
    ensures Shift(Value(a) / Value(b), a.scale + p) == y
  {
    var k := -(a.scale + p);
    NonzeroValue(b);
    QuotientCore(a.coef as real, b.coef as real, -a.scale, -b.scale, p + b.scale, k, y);
  }

  lemma QuotientCore(ca: real, cb: real, i: int, j: int, m: int, k: int, y: real)
    requires Shift(ca, m) == y * cb && Shift(cb, j) != 0.0 && i == m + k + j
    ensures Shift(Shift(ca, i) / Shift(cb, j), -k) == y
  {
    ShiftedQuotient(ca, cb, m, y, k, j);
    QuotientUnshifted(Shift(ca, i), Shift(cb, j), y, k);
  }

  lemma NonzeroValue(d: Decimal)
    ensures Value(d) == 0.0 <==> d.coef == 0
  {
    ShiftOrder(d.coef as real, 0.0, -d.scale);
    ShiftOrder(0.0, d.coef as real, -d.scale);
    ShiftZero(-d.scale);
  }

  lemma QuotientTimes(n: real, d: real, y: real)
    requires d != 0.0 && y == n / d
    ensures y * d == n
  {
  }

  lemma ShiftedQuotient(ca: real, cb: real, m: int, y: real, k: int, j: int)
    requires Shift(ca, m) == y * cb
    ensures Shift(y, k) * Shift(cb, j) == Shift(ca, m + k + j)
  {
    ShiftProduct(y, cb, k, j);
    ShiftShift(ca, m, k + j);
  }

  lemma {:induction false} ShiftZero(n: int)
    ensures Shift(0.0, n) == 0.0
    decreases if n < 0 then -n else n
  {
    if n > 0 { ShiftZero(n - 1); }
    if n < 0 { ShiftZero(n + 1); }
  }

  lemma IntDivIs(n: int, d: int)
    requires d != 0
    ensures TruncatesTo(n as real / d as real, IntDiv(n, d))
    ensures Abs(IntDiv(n, d)) == Abs(n) / Abs(d)
    ensures IntDiv(n, d) > 0 ==> n != 0 && (n > 0 <==> d > 0)
    ensures IntDiv(n, d) < 0 ==> n != 0 && (n > 0 <==> d < 0)
  {
    QuotientReal(Abs(n), Abs(d));
    QuotientSign(n, d);
    assert n == 0 ==> n / d == 0;
  }

  /** Fewer places make a number at least ten times smaller, on the same side of zero. */
  lemma {:induction false} Shrinks(x: real, k: int)
    requires k >= 1
    ensures Magnitude(Shift(x, -k)) <= Magnitude(x) / 10.0
    ensures (Shift(x, -k) > 0.0 <==> x > 0.0) && (Shift(x, -k) < 0.0 <==> x < 0.0)
    decreases k
  {
    if k > 1 { Shrinks(x, k - 1); } else { assert Shift(x, 0) == x; }
  }

  lemma ShrunkTruncates(x: real, n: int, k: int)
    requires TruncatesTo(x, n) && k >= 1
    ensures TruncatesTo(Shift(x, -k), n) <==> n == 0
  {
    Shrinks(x, k);
  }

  /** The exact quotient at the places `Div` gives its result, where the dividend is not
      scaled up because `m` is negative. */
  lemma UnscaledQuotient(a: Decimal, b: Decimal, p: int, m: int)
    requires b.coef != 0 && m == p + b.scale
    ensures Value(b) != 0.0
    ensures Shift(Value(a) / Value(b), a.scale + p) == Shift(a.coef as real / b.coef as real, m)
  {
    var y := a.coef as real / b.coef as real;
    QuotientTimes(a.coef as real, b.coef as real, y);
    Commute(y, b.coef as real);
    ShiftMultiple(y, b.coef as real, m, a.coef as real);
    Commute(b.coef as real, Shift(y, m));
    QuotientShift(a, b, p, Shift(a.coef as real, m), Shift(y, m));
  }

  lemma QuotientZero(n: int, d: int)
    requires d != 0
    ensures IntDiv(n, d) == 0 <==> Abs(n) < Abs(d)
  {
    IntDivIs(n, d);
    var c, e := Abs(n), Abs(d);
    assert c == c / e * e + c % e;
    if c < e { SmallDividend(c, e); }
  }

  lemma SmallDividend(c: nat, e: int)
    requires c < e
    ensures c / e == 0
  {
  }

  /** `div` fails on a zero divisor only. Its quotient, at `scale(a) + precision` places, is
      the exact one truncated exactly when the precision makes up for a negative scale of
      the divisor, or the dividend's coefficient is the smaller and the quotient zero. */
  lemma DivTruncates(a: Decimal, b: Decimal, p: int)
    ensures Div(a, b, p).None? <==> Value(b) == 0.0
    ensures Div(a, b, p).Some? ==>
              var r := Div(a, b, p).value;
              && r.scale == a.scale + p
              && (TruncatesTo(Shift(Value(a) / Value(b), r.scale), r.coef) <==>
                    p + b.scale >= 0 || Abs(a.coef) < Abs(b.coef))
  {
    NonzeroValue(b);
    if b.coef != 0 {
      var m := p + b.scale;
      UnscaledQuotient(a, b, p, m);
      if m >= 0 {
        var n := ScaleUp(a.coef, m);
        ScaleUpIs(a.coef, m);
        var y := n as real / b.coef as real;
        QuotientTimes(n as real, b.coef as real, y);
        QuotientShift(a, b, p, n as real, y);
        IntDivIs(n, b.coef);
      } else {
        IntDivIs(a.coef, b.coef);
        ShrunkTruncates(a.coef as real / b.coef as real, IntDiv(a.coef, b.coef), -m);
        QuotientZero(a.coef, b.coef);
      }
    }
  }

  lemma RoundCoefIs(coef: int, h: int)
    requires h > 0
    ensures var c := Abs(coef);
            Abs(RoundCoef(coef, 10 * h, h)) == c / (10 * h) + if c % (10 * h) >= 5 * h then 1 else 0
    ensures RoundCoef(coef, 10 * h, h) > 0 ==> coef > 0
    ensures RoundCoef(coef, 10 * h, h) < 0 ==> coef < 0
  {
    var c := Abs(coef);
    var m, q := c % (10 * h), c / (10 * h);
    AtLeastFive(m, h);
    SmallQuotient(c, 10 * h);
    assert IntDiv(coef, 10 * h) == if coef < 0 then -q else q;
  }

  lemma SmallQuotient(c: nat, d: int)
    requires d > 0
    ensures c / d >= 0 && 0 <= c % d < d && (c == 0 ==> c / d == 0 && c % d == 0)
  {
    if c == 0 { assert 0 / d == 0; }
  }

  lemma AtLeastFive(m: int, h: int)
    requires h > 0 && m >= 0
    ensures m / h >= 5 <==> m >= 5 * h
  {
    var q := m / h;
    assert m == q * h + m % h;
    if q >= 5 {
      MulMono(5, q, h);
    } else {
      MulMono(q, 4, h);
    }
  }

  lemma MulMono(x: int, y: int, h: int)
    requires x <= y && h > 0
    ensures x * h <= y * h
  {
  }

  lemma HalfUp(c: nat, d: int, h: int, r: int)
    requires h > 0 && d == 10 * h
    requires r == c / d + if c % d >= 5 * h then 1 else 0
    ensures r * d - 5 * h <= c < r * d + 5 * h
  {
    var q := c / d;
    assert c == q * d + c % d;
    assert (q + 1) * d == q * d + d;
  }

  lemma Halves(x: real, d: real, r: real)
    requires d > 0.0 && r * d - d / 2.0 <= x < r * d + d / 2.0
    ensures r - 0.5 <= x / d < r + 0.5
  {
    var z := x / d;
    assert z * d == x;
    if z < r - 0.5 { Below(z, r - 0.5, d); }
    if z >= r + 0.5 { Below(r + 0.5, z, d); }
  }

  lemma Below(x: real, y: real, d: real)
    requires x <= y && d > 0.0
    ensures x * d <= y * d && (x < y ==> x * d < y * d)
  {
  }

  lemma DivideSigned(x: real, d: real)
    requires d > 0.0
    ensures Magnitude(x / d) == Magnitude(x) / d
    ensures (x > 0.0 ==> x / d > 0.0) && (x < 0.0 ==> x / d < 0.0)
  {
  }

  /** Truncating before rounding loses nothing: the bound a half sets is an integer. */
  lemma GuardDigit(x: real, coef: int, h: int)
    requires h > 0 && TruncatesTo(x, coef)
    ensures RoundsTo(x / (10 * h) as real, RoundCoef(coef, 10 * h, h))
  {
    var d, r := 10 * h, RoundCoef(coef, 10 * h, h);
    var c, a := Abs(coef), Abs(r);
    RoundCoefIs(coef, h);
    HalfUp(c, d, h, a);
    DivideSigned(x, d as real);
    HalfBounds(Magnitude(x), c, a, h);
  }

  lemma HalfBounds(x: real, c: int, a: int, h: int)
    requires h > 0 && c as real <= x < (c + 1) as real
    requires a * (10 * h) - 5 * h <= c < a * (10 * h) + 5 * h
    ensures a as real - 0.5 <= x / (10 * h) as real < a as real + 0.5
  {
    RealBounds(x, c, a * (10 * h), h);
    ProductReal(a, 10 * h);
    Halves(x, (10 * h) as real, a as real);
  }

  lemma RealBounds(x: real, c: int, m: int, h: int)
    requires c as real <= x < (c + 1) as real && m - 5 * h <= c < m + 5 * h
    ensures m as real - (10 * h) as real / 2.0 <= x < m as real + (10 * h) as real / 2.0
  {
  }

  lemma {:induction false} ShiftDown(x: real, n: int)
    requires n >= 0
    ensures Power(10, n) > 0 && x / Power(10, n) as real == Shift(x, -n)
  {
    PowerPositive(n);
    if n > 0 {
      ShiftDown(x, n - 1);
      TenthOf(x, Power(10, n - 1));
    }
  }

  lemma TenthOf(x: real, p: int)
    requires p > 0
    ensures x / (10 * p) as real == (x / p as real) / 10.0
  {
  }

  lemma RoundShifted(v: real, d: Decimal, places: int)
    requires d.scale > places && TruncatesTo(Shift(v, d.scale), d.coef)
    ensures Round(d, places).scale == places && RoundsTo(Shift(v, places), Round(d, places).coef)
  {
    var n := d.scale - places;
    Pow10Is(n);
    Pow10Is(n - 1);
    GuardDigit(Shift(v, d.scale), d.coef, Pow10(n - 1));
    ShiftDown(Shift(v, d.scale), n);
    ShiftShift(v, d.scale, -n);
  }

  /** `round` gives the nearest decimal at that many places, halves away from zero, and
      leaves a decimal that already fits as it is. */
  lemma RoundIs(d: Decimal, places: int)
    ensures d.scale <= places ==> Round(d, places) == d
    ensures d.scale > places ==>
              Round(d, places).scale == places && RoundsTo(Shift(Value(d), places), Round(d, places).coef)
  {
    if d.scale > places {
      ShiftShift(d.coef as real, -d.scale, d.scale);
      RoundShifted(Value(d), d, places);
    }
  }

  lemma ShrunkRounds(x: real, n: int, k: int)
    requires RoundsTo(x, n) && k >= 1
    ensures RoundsTo(Shift(x, -k), n) <==> n == 0
  {
    Shrinks(x, k);
  }

  lemma QuotientLess(x: real, d: real, c: real)
    requires d > 0.0
    ensures x / d < c <==> x < c * d
  {
    var z := x / d;
    assert z * d == x;
    if z < c { Below(z, c, d); } else { Below(c, z, d); }
  }

  lemma RoundsZero(x: real, n: int)
    requires RoundsTo(x, n)
    ensures n == 0 <==> Magnitude(x) < 0.5
  {
  }

  /** The quotient of the coefficients, rounded at `10 * h`, is zero below one half. */
  lemma RoundsToZero(ca: int, cb: int, h: int, y: real, n: int)
    requires cb != 0 && h > 0 && y == ca as real / cb as real && RoundsTo(y / (10 * h) as real, n)
    ensures n == 0 <==> Abs(ca) < 5 * h * Abs(cb)
  {
    hide RoundsTo;
    RoundsZero(y / (10 * h) as real, n);
    QuotientSign(ca, cb);
    hide Magnitude;
    DivideSigned(y, (10 * h) as real);
    QuotientLess(Magnitude(y), (10 * h) as real, 0.5);
    assert 0.5 * (10 * h) as real == (5 * h) as real;
    QuotientLess(Abs(ca) as real, Abs(cb) as real, (5 * h) as real);
    ProductReal(5 * h, Abs(cb));
  }

  /** A truncation `c` of `y`, rounded at `scale + 1` places, against the same of a number
      ten or more times smaller. */
  lemma SmallerRounds(y: real, c: int, scale: nat, h: int, q: real, m: int, p: int)
    requires TruncatesTo(y, c) && h == Power(10, scale) > 0 && m < 0 && Shift(q, scale + p + 1) == Shift(y, m)
    ensures RoundsTo(y / (10 * h) as real, RoundCoef(c, 10 * h, h))
    ensures RoundsTo(Shift(q, p), RoundCoef(c, 10 * h, h)) <==> RoundCoef(c, 10 * h, h) == 0
  {
    GuardDigit(y, c, h);
    ShiftDown(y, scale + 1);
    PowersAt(scale);
    hide RoundCoef, RoundsTo, TruncatesTo, Power, Shift;
    ShiftsSwap(y, q, m, scale, p);
    ShrunkRounds(Shift(y, -(scale + 1)), RoundCoef(c, 10 * h, h), -m);
  }

  lemma DivRoundParts(a: Decimal, b: Decimal, p: int)
    requires b.coef != 0 && a.scale >= 0 && p + 1 + b.scale < 0
    ensures Power(10, a.scale) > 0
    ensures DivRound(a, b, p)
         == Some(Decimal(RoundCoef(IntDiv(a.coef, b.coef), 10 * Power(10, a.scale), Power(10, a.scale)), p))
  {
    PowersAt(a.scale);
  }

  /** Rounding where the dividend was not scaled up. */
  lemma UnscaledRounds(a: Decimal, b: Decimal, p: int)
    requires b.coef != 0 && a.scale >= 0 && p + 1 + b.scale < 0
    ensures Value(b) != 0.0 && DivRound(a, b, p).Some? && DivRound(a, b, p).value.scale == p
    ensures RoundsTo(Shift(Value(a) / Value(b), p), DivRound(a, b, p).value.coef) <==>
              Abs(a.coef) < 5 * Power(10, a.scale) * Abs(b.coef)
  {
    hide RoundCoef, RoundsTo, TruncatesTo, Power, DivRound, Shift, Value, IntDiv;
    var m, y, h := p + 1 + b.scale, a.coef as real / b.coef as real, Power(10, a.scale);
    var c := IntDiv(a.coef, b.coef);
    IntDivIs(a.coef, b.coef);
    DivRoundParts(a, b, p);
    UnscaledQuotient(a, b, p + 1, m);
    SmallerRounds(y, c, a.scale, h, Value(a) / Value(b), m, p);
    RoundsToZero(a.coef, b.coef, h, y, RoundCoef(c, 10 * h, h));
  }

  lemma PowersAt(n: nat)
    ensures Pow10(n) == Power(10, n) > 0 && Pow10(n + 1) == Power(10, n + 1) == 10 * Power(10, n)
  {
    Pow10Is(n + 1);
    Pow10Is(n);
    PowerPositive(n);
  }

  lemma ShiftsSwap(y: real, q: real, m: int, scale: nat, p: int)
    requires Shift(q, scale + p + 1) == Shift(y, m)
    ensures Shift(q, p) == Shift(Shift(y, -(scale + 1)), m)
  {
    var k: int := scale + 1;
    ShiftShift(y, m, -k);
    ShiftShift(y, -k, m);
    ShiftShift(q, scale + p + 1, -k);
  }

  /** `div_round` is the exact quotient rounded half away from zero at `p` places, so the
      truncation at the guard digit is never seen, exactly when the precision makes up for a
      negative scale of the divisor or the quotient of the coefficients rounds to zero. A
      dividend of negative scale has no guard digit to drop: its quotient stays truncated,
      and reaches `p` places only from scale -1. */
  lemma DivRoundIs(a: Decimal, b: Decimal, p: int)
    ensures DivRound(a, b, p).None? <==> Value(b) == 0.0
    ensures DivRound(a, b, p).Some? ==>
              var q, r := Value(a) / Value(b), DivRound(a, b, p).value;
              && (r.scale == p <==> a.scale >= -1)
              && (if a.scale >= 0 then
                    RoundsTo(Shift(q, p), r.coef) <==>
                      p + 1 + b.scale >= 0 || Abs(a.coef) < 5 * Power(10, a.scale) * Abs(b.coef)
                  else
                    r.scale == a.scale + p + 1
                    && (TruncatesTo(Shift(q, r.scale), r.coef) <==>
                          p + 1 + b.scale >= 0 || Abs(a.coef) < Abs(b.coef)))
  {
    DivTruncates(a, b, p + 1);
    if b.coef != 0 && a.scale >= 0 {
      if p + 1 + b.scale >= 0 {
        RoundShifted(Value(a) / Value(b), Div(a, b, p + 1).value, p);
      } else {
        UnscaledRounds(a, b, p);
      }
    }
  }

  /** A divisor of negative scale, as rounding makes one, leaves the dividend unscaled: ten
      divided by a hundred is ten. */
  lemma ScaleLost()
    ensures var hundred := Round(Decimal(100, 0), -2);
            && Value(hundred) == 100.0 && Div(Decimal(10, 0), hundred, 0) == Some(Decimal(10, 0))
            && DivRound(Decimal(10, 0), hundred, 0) == Some(Decimal(1, 0))
  {
    PowersAt(1);
    assert Pow10(1) == 10 && Pow10(2) == 100;
    var hundred := Round(Decimal(100, 0), -2);
    assert hundred == Decimal(1, -2);
    assert Shift(1.0, 1) == 10.0 && Shift(1.0, 2) == 100.0;
  }

  // ---------------------------------------------------------------- printing and reading

  lemma {:induction false} LeadingZero(s: string)
    ensures DigitsValue("0" + s) == DigitsValue(s)
  {
    var t := "0" + s;
    if s == "" {
      assert t[..0] == "";
    } else {
      LeadingZero(s[..|s| - 1]);
      assert t[..|t| - 1] == "0" + s[..|s| - 1];
    }
  }

  lemma {:induction false} PadIs(n: int, s: string)
    requires AllDigits(s)
    ensures AllDigits(Pad(n, s)) && DigitsValue(Pad(n, s)) == DigitsValue(s)
    decreases n
  {
    if n > 0 {
      LeadingZero(s);
      PadIs(n - 1, "0" + s);
    }
  }

  lemma PlaceDotIs(s: string, scale: nat) returns (ip: string, fp: string)
    requires s != "" && AllDigits(s) && scale > 0 && (s[0] == '0' ==> |s| == 1)
    ensures PlaceDot(s, scale) == ip + "." + fp && ip != "" && |fp| == scale && (|ip| == 1 || ip[0] != '0')
    ensures AllDigits(ip + fp) && DigitsValue(ip + fp) == DigitsValue(s)
  {
    var padded := if |s| <= scale then Pad(scale - |s| + 1, s) else s;
    PadIs(scale - |s| + 1, s);
    ip, fp := padded[..|padded| - scale], padded[|padded| - scale..];
    assert ip + fp == padded;
  }

  lemma ReadPositive(ip: string, fp: string)
    requires ip != "" && AllDigits(ip + fp)
    ensures FromString(ip + "." + fp) == Decimal(DigitsValue(ip + fp), |fp|)
  {
    DigitsAround(ip, fp);
    SplitAtDot(ip, fp);
    ReadDigits(ip + fp);
  }

  lemma ReadNegative(ip: string, fp: string)
    requires ip != "" && AllDigits(ip + fp)
    ensures FromString("-" + (ip + "." + fp)) == Decimal(-DigitsValue(ip + fp), |fp|)
  {
    DigitsAround(ip, fp);
    SplitAtDot("-" + ip, fp);
    ReadDigits(ip + fp);
    SignFirst("-", ip, ".", fp);
  }

  lemma SignFirst(a: string, b: string, c: string, d: string)
    ensures a + b + c + d == a + (b + c + d) && a + b + d == a + (b + d)
  {
  }

  lemma DigitsAround(ip: string, fp: string)
    requires ip != "" && AllDigits(ip + fp)
    ensures '.' !in ip && ip[|ip| - 1] != '-'
  {
    assert forall i :: 0 <= i < |ip| ==> ip[i] == (ip + fp)[i];
  }

  lemma SplitAtDot(before: string, after: string)
    requires '.' !in before && before != "-" && before != ""
    ensures FromString(before + "." + after) == Decimal(IntOrZero(before + after), |after|)
  {
    var s := before + "." + after;
    FirstDot(before, after, 0);
    assert s[..|before|] == before && s[|before| + 1..] == after;
  }

  lemma {:induction false} FirstDot(before: string, after: string, pos: nat)
    requires '.' !in before
    ensures FindDot(before + "." + after, pos) == Some(pos + |before|)
  {
    var s := before + "." + after;
    if before == "" {
      assert s[0] == '.';
    } else {
      assert s[1..] == before[1..] + "." + after;
      FirstDot(before[1..], after, pos + 1);
    }
  }

  lemma ReadDigits(body: string)
    requires body != "" && AllDigits(body)
    ensures StringToInt(body) == Some(DigitsValue(body))
    ensures StringToInt("-" + body) == Some(-DigitsValue(body))
  {
    assert ("-" + body)[1..] == body;
  }

  lemma ReadWhole(n: int)
    ensures FromString(IntToString(n)) == Decimal(n, 0)
  {
    var s := IntToString(n);
    DecimalIs(Abs(n));
    assert '.' !in Integers.Decimal(Abs(n));
    FindDotIs(s, 0);
    IntStringRoundTrip(n);
  }

  /** Printing and reading back gives the same coefficient and scale, zeros after the dot
      included. */
  lemma StringRoundTrip(d: Decimal)
    requires d.scale >= 0
    ensures FromString(ToString(d)) == d
  {
    if d.scale == 0 {
      ReadWhole(d.coef);
    } else {
      var digits := Integers.Decimal(Abs(d.coef));
      DecimalIs(Abs(d.coef));
      var ip, fp := PlaceDotIs(digits, d.scale);
      if d.coef < 0 {
        assert IntToString(d.coef)[1..] == digits;
        ReadNegative(ip, fp);
      } else {
        ReadPositive(ip, fp);
      }
    }
  }

  /** The printed form: a minus sign if the coefficient is negative, the whole part without
      needless zeros, and as many digits after the dot as the scale says. */
  lemma ToStringIs(d: Decimal) returns (ip: string, fp: string)
    requires d.scale >= 0
    ensures ToString(d) == (if d.coef < 0 then "-" else "") + ip + (if d.scale == 0 then "" else "." + fp)
    ensures ip != "" && AllDigits(ip + fp) && |fp| == d.scale && DigitsValue(ip + fp) == Abs(d.coef)
    ensures |ip| == 1 || ip[0] != '0'
  {
    hide PlaceDot, AllDigits, DigitsValue;
    var digits := Integers.Decimal(Abs(d.coef));
    var sign := if d.coef < 0 then "-" else "";
    DecimalIs(Abs(d.coef));
    SignedDigits(d.coef);
    if d.scale == 0 {
      ip, fp := digits, "";
      assert ip + fp == ip && sign + ip + "" == sign + ip;
    } else {
      ip, fp := PlaceDotIs(digits, d.scale);
      Regroup(sign, ip, ".", fp);
    }
  }

  lemma SignedDigits(n: int)
    ensures IntToString(n) == (if n < 0 then "-" else "") + Integers.Decimal(Abs(n))
    ensures n < 0 ==> IntToString(n)[1..] == Integers.Decimal(Abs(n))
  {
  }

  lemma Regroup(a: string, b: string, c: string, d: string)
    ensures a + (b + c + d) == a + b + (c + d) && (a == "" ==> a + (b + c + d) == b + c + d)
  {
  }

  /** Any text is read: as the integer that it spells without its first dot, or as zero if it
      spells none, with as many places as characters follow the dot. */
  lemma FromStringIs(before: string, after: string)
    requires '.' !in before
    ensures FromString(before + "." + after)
         == Decimal(match StringToInt(before + after) { case Some(n) => n case None => 0 }, |after|)
    ensures FromString(before) == Decimal(match StringToInt(before) { case Some(n) => n case None => 0 }, 0)
  {
    var s := before + "." + after;
    FirstDot(before, after, 0);
    assert s[..|before|] == before && s[|before| + 1..] == after;
    assert before == "" ==> before + after == after;
    FindDotIs(before, 0);
  }
}
