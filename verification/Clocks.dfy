/** How the simulations' time runs, told without their own functions. */
module Clocks {

  /** A frame, whatever its length, counts for a tenth of a second at most. */
  function Frame(dt: real): real {
    if dt < 0.1 then dt else 0.1
  }

  /** The time that frames count for. */
  function Elapsed(dts: seq<real>): real {
    if dts == [] then 0.0 else Frame(dts[0]) + Elapsed(dts[1..])
  }

  /** Every frame has a length. */
  predicate Passing(dts: seq<real>) {
    forall i :: 0 <= i < |dts| ==> dts[i] > 0.0
  }

  lemma {:induction false} ElapsedPositive(dts: seq<real>)
    requires Passing(dts)
    ensures Elapsed(dts) >= 0.0 && (dts != [] ==> Elapsed(dts) > 0.0)
  {
    if dts != [] { ElapsedPositive(dts[1..]); }
  }

  function Wait(x: real): real {
    if x > 0.0 then x else 0.0
  }

  function Times(n: nat, x: real): real {
    if n == 0 then 0.0 else x + Times(n - 1, x)
  }

  lemma {:induction false} TimesNonnegative(n: int, x: real)
    requires x >= 0.0
    ensures n >= 0 ==> Times(n, x) >= 0.0
  {
    if n > 0 { TimesNonnegative(n - 1, x); }
  }

  lemma {:induction false} TimesMore(m: nat, n: nat, x: real)
    ensures Times(m + n, x) == Times(m, x) + Times(n, x)
    decreases m
  {
    if m > 0 { TimesMore(m - 1, n, x); }
  }

  /** What a load per second asks for in a time. */
  function Share(load: real, t: real): real {
    load * t
  }

  lemma Shares(load: real, t: real, d: real)
    ensures Share(load, t + d) == Share(load, t) + Share(load, d)
    ensures Share(load, 0.0) == 0.0 && (load >= 0.0 && d >= 0.0 ==> Share(load, d) >= 0.0)
  {
  }

  lemma WholePart(acc: real, n: nat, x: real)
    requires 0.0 <= acc < 1.0 && acc + n as real == x
    ensures n == x.Floor
  {
  }
}
