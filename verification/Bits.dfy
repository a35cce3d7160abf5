/** Shifts and five-bit digits of natural numbers, as March's `int_shl`, `int_shr` and
    `int_and(_, 31)` compute them. Everything is defined by linear recursion, so that
    proofs about tries never meet a product of two unknowns. */
module Bits {

  function Shl(x: nat, n: nat): nat
    decreases n
  {
    if n == 0 then x else Shl(2 * x, n - 1)
  }

  function Shr(x: nat, n: nat): nat
    decreases n
  {
    if n == 0 then x else Shr(x / 2, n - 1)
  }

  function And31(x: nat): nat {
    x % 32
  }

  /** `k` copies of `c`. */
  function Times(k: nat, c: nat): nat {
    if k == 0 then 0 else Times(k - 1, c) + c
  }

  /** Numbers representable in `s` bits. */
  function Width(s: nat): nat {
    Shl(1, s)
  }

  /** The low `s` bits of `x`, summed five-bit digit by five-bit digit. */
  function Low(x: nat, s: nat): nat {
    if s < 5 then 0 else Times(And31(Shr(x, s - 5)), Width(s - 5)) + Low(x, s - 5)
  }

  lemma {:induction false} ShlShl(x: nat, m: nat, n: nat)
    ensures Shl(Shl(x, m), n) == Shl(x, m + n)
    decreases m
  {
    if m > 0 { ShlShl(2 * x, m - 1, n); }
  }

  lemma Shl5(x: nat)
    ensures Shl(x, 5) == 32 * x
  {
    assert Shl(16 * x, 1) == 32 * x;
    assert Shl(8 * x, 2) == 32 * x;
    assert Shl(4 * x, 3) == 32 * x;
    assert Shl(2 * x, 4) == 32 * x;
  }

  lemma WidthStep(s: nat)
    ensures Width(s + 5) == 32 * Width(s)
  {
    ShlShl(1, s, 5);
    Shl5(Width(s));
  }

  lemma {:induction false} ShrShr(x: nat, m: nat, n: nat)
    ensures Shr(Shr(x, m), n) == Shr(x, m + n)
    decreases m
  {
    if m > 0 { ShrShr(x / 2, m - 1, n); }
  }

  lemma Shr5(x: nat)
    ensures Shr(x, 5) == x / 32
  {
    assert Shr(x / 16, 1) == x / 32;
    assert Shr(x / 8, 2) == x / 32;
    assert Shr(x / 4, 3) == x / 32;
    assert Shr(x / 2, 4) == x / 32;
  }

  lemma {:induction false} TimesAdd(a: nat, b: nat, c: nat)
    ensures Times(a + b, c) == Times(a, c) + Times(b, c)
    decreases b
  {
    if b > 0 {
      TimesAdd(a, b - 1, c);
      assert a + b - 1 == a + (b - 1);
    }
  }

  lemma {:induction false} Times32(k: nat, c: nat)
    ensures Times(32 * k, c) == Times(k, 32 * c) == 32 * Times(k, c)
    decreases k
  {
    if k > 0 {
      Times32(k - 1, c);
      TimesAdd(32 * (k - 1), 32, c);
      TimesConst(c);
    }
  }

  lemma TimesConst(c: nat)
    ensures Times(32, c) == 32 * c
  {
    TimesAdd(16, 16, c);
    TimesAdd(8, 8, c);
    TimesAdd(4, 4, c);
    TimesAdd(2, 2, c);
    assert Times(2, c) == Times(1, c) + c;
  }

  lemma {:induction false} TimesMono(a: nat, b: nat, c: nat)
    requires a <= b
    ensures Times(a, c) <= Times(b, c)
    ensures a < b ==> Times(a, c) + c <= Times(b, c)
    decreases b
  {
    if a < b { TimesMono(a, b - 1, c); }
  }

  /** Quotient and remainder by `c` are unique. */
  lemma TimesUnique(a: nat, r: nat, b: nat, q: nat, c: nat)
    requires Times(a, c) + r == Times(b, c) + q && r < c && q < c
    ensures a == b && r == q
  {
    if a < b { TimesMono(a, b, c); }
    if b < a { TimesMono(b, a, c); }
  }

  /** A number is its high part shifted back up plus its low bits. */
  lemma {:induction false} HighLow(x: nat, s: nat)
    requires s % 5 == 0
    ensures x == Times(Shr(x, s), Width(s)) + Low(x, s) && Low(x, s) < Width(s)
    decreases s
  {
    if s == 0 {
      assert Width(0) == 1;
      TimesOne(x);
    } else {
      var t := s - 5;
      HighLow(x, t);
      var h, w := Shr(x, t), Width(t);
      ShrShr(x, t, 5);
      Shr5(h);
      WidthStep(t);
      var q, d := h / 32, h % 32;
      TimesAdd(32 * q, d, w);
      Times32(q, w);
      TimesMono(d, 31, w);
      Times31(w);
    }
  }

  lemma {:induction false} TimesOne(x: nat)
    ensures Times(x, 1) == x
  {
    if x > 0 { TimesOne(x - 1); }
  }

  lemma Times31(c: nat)
    ensures Times(31, c) + c == 32 * c
  {
    TimesConst(c);
    assert Times(32, c) == Times(31, c) + c;
  }

  /** A number below 2^s is its own low part. */
  lemma LowSmall(x: nat, s: nat)
    requires s % 5 == 0 && x < Width(s)
    ensures Low(x, s) == x
  {
    HighLow(x, s);
    TimesMono(0, Shr(x, s), Width(s));
  }
}
