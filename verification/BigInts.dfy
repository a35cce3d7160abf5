/** Arbitrary-precision integers (assets/stdlib/bigint.js): little-endian lists of
    base-10000 limbs with a sign.

    Intermediate results are declared `Small`, so that every sum, product, carry and
    running remainder is proved to stay below 10^8, well inside the 32-bit `Int` of the
    browser REPL. `None` stands for a `panic`. */
module BigInts {
  import opened Integers
  import opened Lists
  import opened Options

  datatype BigInt = BigInt(nonneg: bool, digits: seq<int>)

  const BASE := 10000

  type Small = x: int | -100_000_000 < x < 100_000_000

  predicate Limbs(xs: seq<int>) {
    forall i :: 0 <= i < |xs| ==> 0 <= xs[i] < BASE
  }

  // ---------------------------------------------------------------- digit lists

  function DropLeadingZeros(xs: seq<int>): seq<int> {
    if xs == [] then [] else if xs[0] == 0 then DropLeadingZeros(xs[1..]) else xs
  }

  function Normalize(digits: seq<int>): seq<int> {
    Reverse(DropLeadingZeros(Reverse(digits)))
  }

  function CmpGo(xs: seq<int>, ys: seq<int>): int {
    if xs == [] then 0
    else if ys == [] then 0
    else if xs[0] < ys[0] then -1
    else if xs[0] > ys[0] then 1
    else CmpGo(xs[1..], ys[1..])
  }

  function CompareDigits(a: seq<int>, b: seq<int>): int {
    if |a| < |b| then -1
    else if |a| > |b| then 1
    else CmpGo(Reverse(a), Reverse(b))
  }

  function LowLimb(n: int): int {
    n - (n / BASE) * BASE
  }

  function AddGo(xs: seq<int>, ys: seq<int>, carry: Small, acc: seq<int>): seq<int>
    requires Limbs(xs) && Limbs(ys) && 0 <= carry <= 1
    decreases |xs| + |ys|
  {
    if xs == [] then
      if ys == [] then if carry == 0 then Reverse(acc) else Reverse([carry] + acc)
      else
        var sum: Small := ys[0] + carry;
        AddGo([], ys[1..], sum / BASE, [LowLimb(sum)] + acc)
    else if ys == [] then
      var sum: Small := xs[0] + carry;
      AddGo(xs[1..], [], sum / BASE, [LowLimb(sum)] + acc)
    else
      var sum: Small := xs[0] + ys[0] + carry;
      AddGo(xs[1..], ys[1..], sum / BASE, [LowLimb(sum)] + acc)
  }

  function AddDigits(a: seq<int>, b: seq<int>): seq<int>
    requires Limbs(a) && Limbs(b)
  {
    Normalize(AddGo(a, b, 0, []))
  }

  function Head(ys: seq<int>): int {
    if ys == [] then 0 else ys[0]
  }

  function Tail(ys: seq<int>): seq<int> {
    if ys == [] then [] else ys[1..]
  }

  function SubGo(xs: seq<int>, ys: seq<int>, borrow: Small, acc: seq<int>): seq<int>
    requires Limbs(xs) && Limbs(ys) && 0 <= borrow <= 1
    decreases |xs|
  {
    if xs == [] then Reverse(acc)
    else
      var diff: Small := xs[0] - Head(ys) - borrow;
      if diff < 0 then SubGo(xs[1..], Tail(ys), 1, [diff + BASE] + acc)
      else SubGo(xs[1..], Tail(ys), 0, [diff] + acc)
  }

  function SubDigits(a: seq<int>, b: seq<int>): seq<int>
    requires Limbs(a) && Limbs(b)
  {
    Normalize(SubGo(a, b, 0, []))
  }

  lemma ProductSmall(x: int, d: int, carry: int)
    requires 0 <= x < BASE && 0 <= d < BASE && 0 <= carry < BASE
    ensures 0 <= x * d + carry < 100_000_000
  {
    MulBound(x, 9999, d);
    MulBound(d, 9999, 9999);
  }

  lemma MulBound(a: int, b: int, c: int)
    requires 0 <= a <= b && 0 <= c
    ensures 0 <= a * c <= b * c
  {
  }

  function MulGo(xs: seq<int>, d: int, carry: Small, acc: seq<int>): seq<int>
    requires Limbs(xs) && 0 <= d < BASE && 0 <= carry < BASE
    decreases |xs|
  {
    if xs == [] then if carry == 0 then Reverse(acc) else Reverse([carry] + acc)
    else
      ProductSmall(xs[0], d, carry);
      var prod: Small := xs[0] * d + carry;
      MulGo(xs[1..], d, prod / BASE, [LowLimb(prod)] + acc)
  }

  function MulDigit(a: seq<int>, d: int): seq<int>
    requires Limbs(a) && 0 <= d < BASE
  {
    Normalize(MulGo(a, d, 0, []))
  }

  function ShiftLeft(a: seq<int>, n: int): seq<int>
    decreases n
  {
    if n <= 0 then a else ShiftLeft([0] + a, n - 1)
  }

  function MulDigitsGo(a: seq<int>, ys: seq<int>, shift: nat, acc: seq<int>): seq<int>
    requires Limbs(a) && Limbs(ys) && Limbs(acc)
    decreases |ys|
  {
    if ys == [] then acc
    else
      MulDigitIs(a, ys[0]);
      ShiftLeftIs(MulDigit(a, ys[0]), shift);
      var partial := ShiftLeft(MulDigit(a, ys[0]), shift);
      AddDigitsIs(acc, partial);
      MulDigitsGo(a, ys[1..], shift + 1, AddDigits(acc, partial))
  }

  function MulDigits(a: seq<int>, b: seq<int>): seq<int>
    requires Limbs(a) && Limbs(b)
  {
    MulDigitsGo(a, b, 0, [])
  }

  lemma RunningSmall(carry: int, d: int, x: int)
    requires 0 <= carry < d < BASE && 0 <= x < BASE
    ensures 0 <= carry * BASE + x < d * BASE < 100_000_000
    ensures 0 <= (carry * BASE + x) / d < BASE
    ensures 0 <= carry * BASE + x - (carry * BASE + x) / d * d < d
  {
    QuotientBound(carry * BASE + x, d, BASE);
  }

  lemma QuotientBound(a: int, d: int, k: int)
    requires 0 <= a < d * k && d > 0
    ensures 0 <= a / d < k
    ensures 0 <= a - a / d * d < d
  {
    var q := a / d;
    assert a == d * q + a % d;
    if q >= k {
      MulBound(k - q, 0, d);
    } else if q < 0 {
      MulBound(1, -q, d);
    }
  }

  function DivGo(xs: seq<int>, d: int, carry: Small, acc: seq<int>): (seq<int>, int)
    requires Limbs(xs) && 0 <= carry < d < BASE
    decreases |xs|
  {
    if xs == [] then (Reverse(acc), carry)
    else
      RunningSmall(carry, d, xs[0]);
      var cur: Small := carry * BASE + xs[0];
      var q: Small := cur / d;
      DivGo(xs[1..], d, cur - q * d, [q] + acc)
  }

  function DivDigit(a: seq<int>, d: int): (seq<int>, int)
    requires Limbs(a) && 0 < d < BASE
  {
    ReverseLimbs(a);
    var (q, rem) := DivGo(Reverse(a), d, 0, []);
    (Normalize(Reverse(q)), rem)
  }

  // ---------------------------------------------------------------- signed integers

  predicate NormalDigits(ds: seq<int>) {
    Limbs(ds) && (ds != [] ==> ds[|ds| - 1] != 0)
  }

  /** The form every operation returns: no leading zero limb, and no negative zero. */
  predicate Normal(a: BigInt) {
    NormalDigits(a.digits) && (a.digits == [] ==> a.nonneg)
  }

  function FromIntGo(n: nat, acc: seq<int>): seq<int> {
    if n == 0 then acc else FromIntGo(n / BASE, [LowLimb(n)] + acc)
  }

  function FromInt(n: int): BigInt {
    if n == 0 then BigInt(true, [])
    else BigInt(n >= 0, Reverse(FromIntGo(if n >= 0 then n else 0 - n, [])))
  }

  function Add(a: BigInt, b: BigInt): BigInt
    requires Limbs(a.digits) && Limbs(b.digits)
  {
    if a.nonneg == b.nonneg then BigInt(a.nonneg, AddDigits(a.digits, b.digits))
    else
      var cmp := CompareDigits(a.digits, b.digits);
      if cmp == 0 then BigInt(true, [])
      else if cmp > 0 then BigInt(a.nonneg, SubDigits(a.digits, b.digits))
      else BigInt(b.nonneg, SubDigits(b.digits, a.digits))
  }

  function Sub(a: BigInt, b: BigInt): BigInt
    requires Limbs(a.digits) && Limbs(b.digits)
  {
    Add(a, BigInt(!b.nonneg, b.digits))
  }

  function Negate(a: BigInt): BigInt {
    if a.digits == [] then BigInt(true, []) else BigInt(!a.nonneg, a.digits)
  }

  function Mul(a: BigInt, b: BigInt): BigInt
    requires Limbs(a.digits) && Limbs(b.digits)
  {
    var ds := MulDigits(a.digits, b.digits);
    if ds == [] then BigInt(true, []) else BigInt(a.nonneg == b.nonneg, ds)
  }

  function Div(a: BigInt, b: BigInt): Option<BigInt>
    requires Limbs(a.digits) && Normal(b)
  {
    if |b.digits| != 1 then None
    else
      var q := DivDigit(a.digits, b.digits[0]).0;
      Some(if q == [] then BigInt(true, []) else BigInt(a.nonneg == b.nonneg, q))
  }

  function Mod(a: BigInt, b: BigInt): Option<BigInt>
    requires Limbs(a.digits) && Normal(b)
  {
    if |b.digits| != 1 then None
    else
      var r := DivDigit(a.digits, b.digits[0]).1;
      Some(if r == 0 then BigInt(true, []) else BigInt(a.nonneg, [r]))
  }

  function Compare(a: BigInt, b: BigInt): int {
    var aZero, bZero := a.digits == [], b.digits == [];
    if aZero && bZero then 0
    else if aZero then if b.nonneg then -1 else 1
    else if bZero then if a.nonneg then 1 else -1
    else if a.nonneg && !b.nonneg then 1
    else if !a.nonneg && b.nonneg then -1
    else
      var mag := CompareDigits(a.digits, b.digits);
      if a.nonneg then mag else 0 - mag
  }

  // ---------------------------------------------------------------- values

  function Value(ds: seq<int>): int {
    if ds == [] then 0 else ds[0] + BASE * Value(ds[1..])
  }

  /** `v` with the digits `xs` appended below it, most significant first. */
  function Append(xs: seq<int>, v: int): int
    decreases |xs|
  {
    if xs == [] then v else Append(xs[1..], xs[0] + BASE * v)
  }

  function ToInt(a: BigInt): int {
    if a.nonneg then Value(a.digits) else -Value(a.digits)
  }

  lemma ConsParts<T>(x: T, xs: seq<T>)
    ensures ([x] + xs)[0] == x && ([x] + xs)[1..] == xs
  {
  }

  lemma ReverseLimbs(xs: seq<int>)
    requires Limbs(xs)
    ensures Limbs(Reverse(xs))
  {
    RevIs(xs, []);
  }

  lemma {:induction false} ValueRev(xs: seq<int>, acc: seq<int>)
    ensures Value(Rev(xs, acc)) == Append(xs, Value(acc))
    decreases |xs|
  {
    if xs != [] {
      ConsParts(xs[0], acc);
      ValueRev(xs[1..], [xs[0]] + acc);
    }
  }

  lemma ValueReverse(xs: seq<int>)
    ensures Value(Reverse(xs)) == Append(xs, 0)
    ensures Append(Reverse(xs), 0) == Value(xs)
  {
    ValueRev(xs, []);
    ValueRev(Reverse(xs), []);
    ReverseReverse(xs);
  }

  lemma {:induction false} ValueNonneg(ds: seq<int>)
    requires Limbs(ds)
    ensures 0 <= Value(ds) < Power(BASE, |ds|)
  {
    if ds != [] { ValueNonneg(ds[1..]); }
  }

  lemma {:induction false} ValueLarge(ds: seq<int>)
    requires NormalDigits(ds) && ds != []
    ensures Value(ds) >= Power(BASE, |ds| - 1) >= 1
  {
    if |ds| > 1 { ValueLarge(ds[1..]); }
  }

  lemma {:induction false} PowerMono(m: nat, n: nat)
    requires m <= n
    ensures 1 <= Power(BASE, m) <= Power(BASE, n)
    decreases n
  {
    if m < n { PowerMono(m, n - 1); } else if m > 0 { PowerMono(m - 1, n - 1); }
  }

  lemma {:induction false} DropIs(xs: seq<int>)
    requires Limbs(xs)
    ensures var r := DropLeadingZeros(xs);
            Append(r, 0) == Append(xs, 0) && Limbs(r) && (r != [] ==> r[0] != 0)
  {
    if xs != [] && xs[0] == 0 { DropIs(xs[1..]); }
  }

  /** Dropping leading zero limbs keeps the value and reaches normal form. */
  lemma NormalizeIs(ds: seq<int>)
    requires Limbs(ds)
    ensures NormalDigits(Normalize(ds)) && Value(Normalize(ds)) == Value(ds)
  {
    var r := Reverse(ds);
    ReverseLimbs(ds);
    DropIs(r);
    var d := DropLeadingZeros(r);
    ReverseLimbs(d);
    RevIs(d, []);
    ValueReverse(d);
    ValueReverse(ds);
  }

  // ---------------------------------------------------------------- comparison

  lemma {:induction false} AppendMono(xs: seq<int>, ys: seq<int>, v: int, w: int)
    requires Limbs(xs) && Limbs(ys) && |xs| == |ys| && v < w
    ensures Append(xs, v) < Append(ys, w)
    decreases |xs|
  {
    if xs != [] { AppendMono(xs[1..], ys[1..], xs[0] + BASE * v, ys[0] + BASE * w); }
  }

  function Sign(n: int): int {
    if n < 0 then -1 else if n > 0 then 1 else 0
  }

  lemma {:induction false} CmpGoIs(xs: seq<int>, ys: seq<int>, v: int)
    requires Limbs(xs) && Limbs(ys) && |xs| == |ys|
    ensures CmpGo(xs, ys) == Sign(Append(xs, v) - Append(ys, v))
    decreases |xs|
  {
    if xs != [] {
      if xs[0] < ys[0] {
        AppendMono(xs[1..], ys[1..], xs[0] + BASE * v, ys[0] + BASE * v);
      } else if xs[0] > ys[0] {
        AppendMono(ys[1..], xs[1..], ys[0] + BASE * v, xs[0] + BASE * v);
      } else {
        CmpGoIs(xs[1..], ys[1..], xs[0] + BASE * v);
      }
    }
  }

  lemma LongerIsLarger(a: seq<int>, b: seq<int>)
    requires NormalDigits(a) && NormalDigits(b) && |a| < |b|
    ensures Value(a) < Value(b)
  {
    ValueNonneg(a);
    ValueLarge(b);
    PowerMono(|a|, |b| - 1);
  }

  lemma CompareDigitsIs(a: seq<int>, b: seq<int>)
    requires NormalDigits(a) && NormalDigits(b)
    ensures CompareDigits(a, b) == Sign(Value(a) - Value(b))
  {
    if |a| < |b| {
      LongerIsLarger(a, b);
    } else if |a| > |b| {
      LongerIsLarger(b, a);
    } else {
      ReverseLimbs(a);
      ReverseLimbs(b);
      RevIs(a, []);
      RevIs(b, []);
      ValueReverse(a);
      ValueReverse(b);
      CmpGoIs(Reverse(a), Reverse(b), 0);
    }
  }

  lemma NormalValue(a: BigInt)
    requires Normal(a)
    ensures a.digits == [] <==> Value(a.digits) == 0
    ensures Value(a.digits) >= 0
  {
    ValueNonneg(a.digits);
    if a.digits != [] { ValueLarge(a.digits); }
  }

  /** `compare` is integer comparison. */
  lemma CompareIs(a: BigInt, b: BigInt)
    requires Normal(a) && Normal(b)
    ensures Compare(a, b) == Sign(ToInt(a) - ToInt(b))
  {
    NormalValue(a);
    NormalValue(b);
    CompareDigitsIs(a.digits, b.digits);
  }

  lemma {:induction false} DigitsUnique(a: seq<int>, b: seq<int>)
    requires NormalDigits(a) && NormalDigits(b) && Value(a) == Value(b)
    ensures a == b
    decreases |a|
  {
    if |a| < |b| { LongerIsLarger(a, b); }
    if |b| < |a| { LongerIsLarger(b, a); }
    if a != [] && |a| == |b| {
      assert a[0] == b[0];
      DigitsUnique(a[1..], b[1..]);
      assert a == [a[0]] + a[1..] && b == [b[0]] + b[1..];
    }
  }

  /** Every integer has exactly one normal form. */
  lemma NormalUnique(a: BigInt, b: BigInt)
    requires Normal(a) && Normal(b) && ToInt(a) == ToInt(b)
    ensures a == b
  {
    NormalValue(a);
    NormalValue(b);
    DigitsUnique(a.digits, b.digits);
  }

  // ---------------------------------------------------------------- addition and subtraction

  lemma HeadTail(xs: seq<int>)
    requires Limbs(xs)
    ensures Value(xs) == Head(xs) + BASE * Value(Tail(xs))
    ensures 0 <= Head(xs) < BASE && Limbs(Tail(xs))
  {
  }

  lemma CarrySplit(n: int)
    ensures n == LowLimb(n) + BASE * (n / BASE) && 0 <= LowLimb(n) < BASE
  {
  }

  lemma AddGoRight(ys: seq<int>, carry: Small, acc: seq<int>)
    requires Limbs(ys) && ys != [] && 0 <= carry <= 1
    ensures var sum := ys[0] + carry;
            0 <= sum / BASE <= 1 && AddGo([], ys, carry, acc) == AddGo([], ys[1..], sum / BASE, [LowLimb(sum)] + acc)
  {
  }

  lemma AddGoLeft(xs: seq<int>, carry: Small, acc: seq<int>)
    requires Limbs(xs) && xs != [] && 0 <= carry <= 1
    ensures var sum := xs[0] + carry;
            0 <= sum / BASE <= 1 && AddGo(xs, [], carry, acc) == AddGo(xs[1..], [], sum / BASE, [LowLimb(sum)] + acc)
  {
  }

  lemma AddGoBoth(xs: seq<int>, ys: seq<int>, carry: Small, acc: seq<int>)
    requires Limbs(xs) && xs != [] && Limbs(ys) && ys != [] && 0 <= carry <= 1
    ensures var sum := xs[0] + ys[0] + carry;
            && 0 <= sum / BASE <= 1
            && AddGo(xs, ys, carry, acc) == AddGo(xs[1..], ys[1..], sum / BASE, [LowLimb(sum)] + acc)
  {
  }

  /** Writing out a limb and carrying the rest. */
  lemma CarryOver(acc: seq<int>, n: int, v: int)
    ensures Append([LowLimb(n)] + acc, n / BASE + v) == Append(acc, n + BASE * v)
    ensures Limbs(acc) ==> Limbs([LowLimb(n)] + acc)
  {
    ConsParts(LowLimb(n), acc);
    CarrySplit(n);
  }

  /** The last carry becomes the top limb, unless it is zero. */
  lemma TopLimb(acc: seq<int>, carry: int)
    requires Limbs(acc) && 0 <= carry < BASE
    ensures var r := if carry == 0 then Reverse(acc) else Reverse([carry] + acc);
            Limbs(r) && Value(r) == Append(acc, carry)
  {
    ReverseLimbs(acc);
    ReverseLimbs([carry] + acc);
    ValueReverse(acc);
    ValueReverse([carry] + acc);
    ConsParts(carry, acc);
  }

  lemma {:induction false} AddGoRightIs(ys: seq<int>, carry: Small, acc: seq<int>)
    requires Limbs(ys) && 0 <= carry <= 1 && Limbs(acc)
    ensures Limbs(AddGo([], ys, carry, acc))
    ensures Value(AddGo([], ys, carry, acc)) == Append(acc, Value(ys) + carry)
    decreases |ys|
  {
    if ys == [] {
      TopLimb(acc, carry);
    } else {
      var sum := ys[0] + carry;
      AddGoRight(ys, carry, acc);
      CarryOver(acc, sum, Value(ys[1..]));
      AddGoRightIs(ys[1..], sum / BASE, [LowLimb(sum)] + acc);
    }
  }

  lemma {:induction false} AddGoLeftIs(xs: seq<int>, carry: Small, acc: seq<int>)
    requires Limbs(xs) && 0 <= carry <= 1 && Limbs(acc)
    ensures Limbs(AddGo(xs, [], carry, acc))
    ensures Value(AddGo(xs, [], carry, acc)) == Append(acc, Value(xs) + carry)
    decreases |xs|
  {
    if xs == [] {
      TopLimb(acc, carry);
    } else {
      var sum := xs[0] + carry;
      AddGoLeft(xs, carry, acc);
      CarryOver(acc, sum, Value(xs[1..]));
      AddGoLeftIs(xs[1..], sum / BASE, [LowLimb(sum)] + acc);
    }
  }

  lemma {:induction false} AddGoIs(xs: seq<int>, ys: seq<int>, carry: Small, acc: seq<int>)
    requires Limbs(xs) && Limbs(ys) && 0 <= carry <= 1 && Limbs(acc)
    ensures Limbs(AddGo(xs, ys, carry, acc))
    ensures Value(AddGo(xs, ys, carry, acc)) == Append(acc, Value(xs) + Value(ys) + carry)
    decreases |xs|
  {
    if xs == [] {
      AddGoRightIs(ys, carry, acc);
    } else if ys == [] {
      AddGoLeftIs(xs, carry, acc);
    } else {
      var sum := xs[0] + ys[0] + carry;
      AddGoBoth(xs, ys, carry, acc);
      CarryOver(acc, sum, Value(xs[1..]) + Value(ys[1..]));
      AddGoIs(xs[1..], ys[1..], sum / BASE, [LowLimb(sum)] + acc);
    }
  }

  lemma AddDigitsIs(a: seq<int>, b: seq<int>)
    requires Limbs(a) && Limbs(b)
    ensures NormalDigits(AddDigits(a, b)) && Value(AddDigits(a, b)) == Value(a) + Value(b)
  {
    AddGoIs(a, b, 0, []);
    var r := AddGo(a, b, 0, []);
    assert Value(r) == Value(a) + Value(b);
    NormalizeIs(r);
    assert AddDigits(a, b) == Normalize(r);
  }

  lemma {:induction false} SubGoIs(xs: seq<int>, ys: seq<int>, borrow: Small, acc: seq<int>)
    requires Limbs(xs) && Limbs(ys) && 0 <= borrow <= 1 && Limbs(acc)
    requires Value(xs) >= Value(ys) + borrow
    ensures Limbs(SubGo(xs, ys, borrow, acc))
    ensures Value(SubGo(xs, ys, borrow, acc)) == Append(acc, Value(xs) - Value(ys) - borrow)
    decreases |xs|
  {
    if xs == [] {
      ValueNonneg(ys);
      ReverseLimbs(acc);
      ValueReverse(acc);
    } else {
      HeadTail(ys);
      var diff := xs[0] - Head(ys) - borrow;
      var d, out := if diff < 0 then diff + BASE else diff, if diff < 0 then 1 else 0;
      assert Value(xs) - Value(ys) - borrow == d + BASE * (Value(xs[1..]) - Value(Tail(ys)) - out);
      SubGoIs(xs[1..], Tail(ys), out, [d] + acc);
      ConsParts(d, acc);
    }
  }

  lemma SubDigitsIs(a: seq<int>, b: seq<int>)
    requires Limbs(a) && Limbs(b) && Value(a) >= Value(b)
    ensures NormalDigits(SubDigits(a, b)) && Value(SubDigits(a, b)) == Value(a) - Value(b)
  {
    SubGoIs(a, b, 0, []);
    var r := SubGo(a, b, 0, []);
    assert Value(r) == Value(a) - Value(b);
    NormalizeIs(r);
    assert SubDigits(a, b) == Normalize(r);
  }

  lemma AddDigitsEmpty(a: seq<int>, b: seq<int>)
    requires NormalDigits(a) && NormalDigits(b)
    ensures AddDigits(a, b) == [] <==> a == [] && b == []
  {
    AddDigitsIs(a, b);
    NormalValue(BigInt(true, a));
    NormalValue(BigInt(true, b));
    NormalValue(BigInt(true, AddDigits(a, b)));
  }

  lemma AddOpposite(a: BigInt, b: BigInt)
    requires NormalDigits(a.digits) && NormalDigits(b.digits) && a.nonneg != b.nonneg
    ensures Normal(Add(a, b)) && ToInt(Add(a, b)) == ToInt(a) + ToInt(b)
  {
    CompareDigitsIs(a.digits, b.digits);
    if Value(a.digits) > Value(b.digits) {
      SubNonempty(a.digits, b.digits);
    } else if Value(a.digits) < Value(b.digits) {
      SubNonempty(b.digits, a.digits);
    }
  }

  /** `add` as `sub` calls it: the second operand may be a zero with either sign. */
  lemma AddMixed(a: BigInt, b: BigInt)
    requires Normal(a) && NormalDigits(b.digits)
    ensures Normal(Add(a, b)) && ToInt(Add(a, b)) == ToInt(a) + ToInt(b)
  {
    if a.nonneg == b.nonneg {
      AddDigitsIs(a.digits, b.digits);
      AddDigitsEmpty(a.digits, b.digits);
    } else {
      AddOpposite(a, b);
    }
  }

  lemma SubNonempty(a: seq<int>, b: seq<int>)
    requires Limbs(a) && Limbs(b) && Value(a) > Value(b)
    ensures NormalDigits(SubDigits(a, b)) && SubDigits(a, b) != []
    ensures Value(SubDigits(a, b)) == Value(a) - Value(b)
  {
    SubDigitsIs(a, b);
  }

  /** `add`, `sub` and `negate` are integer addition, subtraction and negation. */
  lemma AddSubIs(a: BigInt, b: BigInt)
    requires Normal(a) && Normal(b)
    ensures Normal(Add(a, b)) && ToInt(Add(a, b)) == ToInt(a) + ToInt(b)
    ensures Normal(Sub(a, b)) && ToInt(Sub(a, b)) == ToInt(a) - ToInt(b)
    ensures Normal(Negate(a)) && ToInt(Negate(a)) == -ToInt(a)
  {
    AddMixed(a, b);
    AddMixed(a, BigInt(!b.nonneg, b.digits));
  }

  // ---------------------------------------------------------------- multiplication

  lemma {:induction false} MulGoIs(xs: seq<int>, d: int, carry: Small, acc: seq<int>)
    requires Limbs(xs) && 0 <= d < BASE && 0 <= carry < BASE && Limbs(acc)
    ensures Limbs(MulGo(xs, d, carry, acc))
    ensures Value(MulGo(xs, d, carry, acc)) == Append(acc, Value(xs) * d + carry)
    decreases |xs|
  {
    if xs == [] {
      TopLimb(acc, carry);
    } else {
      ProductSmall(xs[0], d, carry);
      var prod := xs[0] * d + carry;
      MulGoIs(xs[1..], d, prod / BASE, [LowLimb(prod)] + acc);
      CarryOver(acc, prod, Value(xs[1..]) * d);
      Distribute(xs[0], Value(xs[1..]), d);
    }
  }

  lemma Distribute(x: int, v: int, d: int)
    ensures (x + BASE * v) * d == x * d + BASE * (v * d)
  {
  }

  lemma MulDigitIs(a: seq<int>, d: int)
    requires Limbs(a) && 0 <= d < BASE
    ensures NormalDigits(MulDigit(a, d)) && Value(MulDigit(a, d)) == Value(a) * d
  {
    MulGoIs(a, d, 0, []);
    var r := MulGo(a, d, 0, []);
    assert Value(r) == Value(a) * d;
    NormalizeIs(r);
    assert MulDigit(a, d) == Normalize(r);
  }

  lemma {:induction false} ShiftLeftIs(a: seq<int>, n: nat)
    requires Limbs(a)
    ensures Limbs(ShiftLeft(a, n)) && Value(ShiftLeft(a, n)) == Power(BASE, n) * Value(a)
    decreases n
  {
    if n > 0 {
      ConsParts(0, a);
      ShiftLeftIs([0] + a, n - 1);
      BaseTimes(Power(BASE, n - 1), Value(a));
    }
  }

  lemma BaseTimes(p: int, v: int)
    ensures p * (BASE * v) == (BASE * p) * v
  {
  }

  lemma {:induction false} MulDigitsGoIs(a: seq<int>, ys: seq<int>, shift: nat, acc: seq<int>)
    requires Limbs(a) && Limbs(ys) && NormalDigits(acc)
    ensures NormalDigits(MulDigitsGo(a, ys, shift, acc))
    ensures Value(MulDigitsGo(a, ys, shift, acc)) == Value(acc) + Power(BASE, shift) * (Value(a) * Value(ys))
    decreases |ys|
  {
    if ys != [] {
      MulDigitIs(a, ys[0]);
      ShiftLeftIs(MulDigit(a, ys[0]), shift);
      var partial := ShiftLeft(MulDigit(a, ys[0]), shift);
      AddDigitsIs(acc, partial);
      MulDigitsGoIs(a, ys[1..], shift + 1, AddDigits(acc, partial));
      Schoolbook(Power(BASE, shift), Value(a), ys[0], Value(ys[1..]));
    }
  }

  lemma Schoolbook(p: int, v: int, y: int, w: int)
    ensures p * (v * (y + BASE * w)) == p * (v * y) + (BASE * p) * (v * w)
  {
    assert v * (y + BASE * w) == v * y + BASE * (v * w);
    assert p * (v * y + BASE * (v * w)) == p * (v * y) + p * (BASE * (v * w));
    BaseTimes(p, v * w);
  }

  lemma ZeroProduct(v: int, w: int)
    requires v >= 0 && w >= 0
    ensures v * w >= 0
    ensures v * w == 0 <==> v == 0 || w == 0
  {
    if v > 0 && w > 0 { MulBound(1, v, w); }
  }

  lemma SignedProduct(v: int, w: int)
    ensures (-v) * w == -(v * w) && v * (-w) == -(v * w) && (-v) * (-w) == v * w
  {
  }

  /** `mul` is integer multiplication. */
  lemma MulIs(a: BigInt, b: BigInt)
    requires Normal(a) && Normal(b)
    ensures Normal(Mul(a, b)) && ToInt(Mul(a, b)) == ToInt(a) * ToInt(b)
  {
    MulDigitsGoIs(a.digits, b.digits, 0, []);
    var ds := MulDigits(a.digits, b.digits);
    assert Value(ds) == Value(a.digits) * Value(b.digits);
    NormalValue(a);
    NormalValue(b);
    NormalValue(BigInt(true, ds));
    ZeroProduct(Value(a.digits), Value(b.digits));
    SignedProduct(Value(a.digits), Value(b.digits));
  }

  // ---------------------------------------------------------------- division by one limb

  lemma {:induction false} AppendSnoc(xs: seq<int>, q: int, v: int)
    ensures Append(xs + [q], v) == q + BASE * Append(xs, v)
    decreases |xs|
  {
    if xs == [] {
      assert [] + [q] == [q];
    } else {
      assert (xs + [q])[1..] == xs[1..] + [q];
      AppendSnoc(xs[1..], q, xs[0] + BASE * v);
    }
  }

  lemma {:induction false} DivGoIs(xs: seq<int>, d: int, carry: Small, acc: seq<int>)
    requires Limbs(xs) && 0 <= carry < d < BASE && Limbs(acc)
    ensures var (qs, rem) := DivGo(xs, d, carry, acc);
            && Limbs(qs) && 0 <= rem < d
            && Append(qs, 0) * d + rem == Append(xs, Append(Reverse(acc), 0) * d + carry)
    decreases |xs|
  {
    if xs == [] {
      ReverseLimbs(acc);
    } else {
      RunningSmall(carry, d, xs[0]);
      var cur := carry * BASE + xs[0];
      var q := cur / d;
      DivGoIs(xs[1..], d, cur - q * d, [q] + acc);
      RevCons(q, acc);
      AppendSnoc(Reverse(acc), q, 0);
      Distribute(q, Append(Reverse(acc), 0), d);
    }
  }

  lemma DivDigitIs(a: seq<int>, d: int)
    requires NormalDigits(a) && 0 < d < BASE
    ensures var (q, r) := DivDigit(a, d);
            NormalDigits(q) && 0 <= r < d && Value(a) == Value(q) * d + r
  {
    ReverseLimbs(a);
    DivGoIs(Reverse(a), d, 0, []);
    var (qs, r) := DivGo(Reverse(a), d, 0, []);
    assert Append(Reverse<int>([]), 0) * d == 0;
    ReverseLimbs(qs);
    NormalizeIs(Reverse(qs));
    ValueReverse(qs);
    ValueReverse(a);
    assert Value(Normalize(Reverse(qs))) == Append(qs, 0);
  }

  /** Truncated division: the quotient toward zero, the remainder with the dividend's sign. */
  predicate Truncated(a: int, b: int, q: int, r: int) {
    && a == q * b + r
    && (if b > 0 then -b < r < b else b < r < -b)
    && (r > 0 ==> a > 0) && (r < 0 ==> a < 0)
  }

  /** For a one-limb divisor `div` and `mod_` are truncated division; they panic exactly
      for a zero or longer divisor. */
  lemma DivModIs(a: BigInt, b: BigInt)
    requires Normal(a) && Normal(b)
    ensures Div(a, b).Some? <==> ToInt(b) != 0 && -BASE < ToInt(b) < BASE
    ensures Mod(a, b).Some? <==> Div(a, b).Some?
    ensures Div(a, b).Some? ==>
              && Normal(Div(a, b).value) && Normal(Mod(a, b).value)
              && Truncated(ToInt(a), ToInt(b), ToInt(Div(a, b).value), ToInt(Mod(a, b).value))
  {
    NormalValue(a);
    NormalValue(b);
    OneLimb(b.digits);
    if |b.digits| == 1 {
      var d := b.digits[0];
      assert b.digits[1..] == [] && Value(b.digits) == d;
      hide DivDigit, NormalDigits;
      DivDigitIs(a.digits, d);
      var (q, r) := DivDigit(a.digits, d);
      NormalValue(BigInt(true, q));
      assert [r][1..] == [] && Value([r]) == r;
      SignedProduct(Value(q), d);
      NonnegProduct(Value(q), d);
    }
  }

  lemma NonnegProduct(v: int, d: int)
    requires v >= 0 && d > 0
    ensures v * d >= 0
  {
  }

  lemma OneLimb(ds: seq<int>)
    requires NormalDigits(ds)
    ensures |ds| == 1 <==> 0 < Value(ds) < BASE
  {
    ValueNonneg(ds);
    if ds != [] { ValueLarge(ds); }
    if |ds| == 1 { assert ds[1..] == []; }
    if |ds| > 1 { PowerMono(1, |ds| - 1); assert Power(BASE, 1) == BASE * Power(BASE, 0); }
  }

  // ---------------------------------------------------------------- conversion

  lemma {:induction false} FromIntGoIs(n: nat, acc: seq<int>)
    requires Limbs(acc) && (n == 0 ==> acc == [] || acc[0] != 0)
    ensures var r := FromIntGo(n, acc);
            Limbs(r) && Append(r, 0) == Append(acc, n) && (n > 0 ==> r != []) && (r != [] ==> r[0] != 0)
    decreases n
  {
    if n > 0 {
      var d := LowLimb(n);
      ConsParts(d, acc);
      FromIntGoIs(n / BASE, [d] + acc);
    }
  }

  /** `from_int` reaches the normal form of every integer. */
  lemma FromIntIs(n: int)
    ensures Normal(FromInt(n)) && ToInt(FromInt(n)) == n
  {
    if n != 0 {
      var m := if n >= 0 then n else -n;
      FromIntGoIs(m, []);
      var r := FromIntGo(m, []);
      ReverseLimbs(r);
      RevIs(r, []);
      ValueReverse(r);
    }
  }

  function DigitToStr(d: nat, isFirst: bool): string {
    if isFirst then Decimal(d)
    else
      var s := Decimal(d);
      if |s| >= 4 then s
      else if |s| == 3 then "0" + s
      else if |s| == 2 then "00" + s
      else "000" + s
  }

  function ToStringGo(ds: seq<int>, isFirst: bool, acc: seq<string>): seq<string>
    requires Limbs(ds)
    decreases |ds|
  {
    if ds == [] then acc else ToStringGo(ds[1..], false, [DigitToStr(ds[0], isFirst)] + acc)
  }

  function Join(pieces: seq<string>): string {
    if pieces == [] then "" else pieces[0] + Join(pieces[1..])
  }

  function ToString(a: BigInt): string
    requires Limbs(a.digits)
  {
    if a.digits == [] then "0"
    else
      ReverseLimbs(a.digits);
      var magnitude := Join(Reverse(ToStringGo(Reverse(a.digits), true, [])));
      if a.nonneg then magnitude else "-" + magnitude
  }

  /** Four decimal digits, leading zeros included. */
  function FourDigits(d: nat): string
    requires d < BASE
  {
    [DigitChar(d / 1000), DigitChar(d / 100 % 10), DigitChar(d / 10 % 10), DigitChar(d % 10)]
  }

  lemma DecimalSteps(n: nat)
    requires n >= 10
    ensures Decimal(n) == Decimal(n / 10) + [DigitChar(n % 10)]
  {
  }

  lemma PaddedIs(d: nat)
    requires d < BASE
    ensures DigitToStr(d, false) == FourDigits(d)
  {
    if d >= 10 { DecimalSteps(d); }
    if d >= 100 { DecimalSteps(d / 10); }
    if d >= 1000 { DecimalSteps(d / 100); }
    assert d / 10 / 10 == d / 100 && d / 100 / 10 == d / 1000;
  }

  /** One more limb is four more digits. */
  lemma DecimalLimb(v: nat, d: nat)
    requires v > 0 && d < BASE
    ensures Decimal(d + BASE * v) == Decimal(v) + FourDigits(d)
  {
    var n := d + BASE * v;
    DecimalSteps(n);
    DecimalSteps(n / 10);
    DecimalSteps(n / 10 / 10);
    DecimalSteps(n / 10 / 10 / 10);
    LimbDigits(v, d);
  }

  lemma LimbDigits(v: nat, d: nat)
    requires d < BASE
    ensures var n := d + BASE * v;
            && n % 10 == d % 10 && n / 10 % 10 == d / 10 % 10
            && n / 10 / 10 % 10 == d / 100 % 10 && n / 10 / 10 / 10 % 10 == d / 1000
            && n / 10 / 10 / 10 / 10 == v
  {
    var n := d + BASE * v;
    assert n / 10 == d / 10 + 1000 * v;
    assert n / 10 / 10 == d / 100 + 100 * v;
    assert n / 10 / 10 / 10 == d / 1000 + 10 * v;
  }

  lemma {:induction false} JoinConcat(a: seq<string>, b: seq<string>)
    ensures Join(a + b) == Join(a) + Join(b)
    decreases |a|
  {
    if a == [] {
      assert a + b == b;
    } else {
      assert (a + b)[1..] == a[1..] + b;
      JoinConcat(a[1..], b);
    }
  }

  lemma JoinSnoc(acc: seq<string>, s: string)
    ensures Join(Reverse([s] + acc)) == Join(Reverse(acc)) + s
  {
    RevCons(s, acc);
    JoinConcat(Reverse(acc), [s]);
    assert [s][1..] == [];
    assert Join([s]) == s + "" == s;
  }

  lemma {:induction false} ToStringGoIs(ds: seq<int>, acc: seq<string>, v: nat)
    requires Limbs(ds) && v > 0 && Join(Reverse(acc)) == Decimal(v)
    ensures Append(ds, v) >= 0
    ensures Join(Reverse(ToStringGo(ds, false, acc))) == Decimal(Append(ds, v))
    decreases |ds|
  {
    if ds != [] {
      var piece := DigitToStr(ds[0], false);
      PaddedIs(ds[0]);
      JoinSnoc(acc, piece);
      DecimalLimb(v, ds[0]);
      ToStringGoIs(ds[1..], [piece] + acc, ds[0] + BASE * v);
    }
  }

  /** `to_string` is the decimal expansion of the value, for every normal form. */
  lemma ToStringIs(a: BigInt)
    requires Normal(a)
    ensures ToString(a) == IntToString(ToInt(a))
  {
    NormalValue(a);
    if a.digits != [] {
      ReverseLimbs(a.digits);
      RevIs(a.digits, []);
      var ds := Reverse(a.digits);
      ValueReverse(a.digits);
      var first := Decimal(ds[0]);
      JoinSnoc([], first);
      assert "" + first == first;
      ToStringGoIs(ds[1..], [first] + [], ds[0]);
    }
  }
}
