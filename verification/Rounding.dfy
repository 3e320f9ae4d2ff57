/** Python's `round(x, k)` on real arguments: the nearest multiple of 10^-k, ties to even. */
module Rounding {

  function Pow10(k: nat): (p: int)
    ensures p >= 1
  {
    if k == 0 then 1 else 10 * Pow10(k - 1)
  }

  function RoundHalfEven(x: real): (n: int)
    ensures x - 0.5 <= n as real <= x + 0.5
  {
    var f := x.Floor;
    var d := x - f as real;
    if d < 0.5 || (d == 0.5 && f % 2 == 0) then f else f + 1
  }

  /** A product, named so that proofs can treat it as a value. */
  function Times(x: real, p: real): real {
    x * p
  }

  /** The nearest multiple of 1/p. */
  function Scaled(x: real, p: real): real
    requires p > 0.0
  {
    RoundHalfEven(Times(x, p)) as real / p
  }

  function RoundTo(x: real, k: nat): real {
    Scaled(x, Pow10(k) as real)
  }

  function Abs(x: real): (r: real) {
    if x < 0.0 then -x else x
  }

  lemma {:induction false} Distribute(x: real, y: real, z: real, p: real)
    ensures Times(x + y + z, p) == Times(x, p) + Times(y, p) + Times(z, p)
  {
  }

  lemma {:induction false} Sign(d: real, p: real)
    requires p > 0.0
    ensures Times(d, p) <= 0.0 ==> d <= 0.0
    ensures Times(d, p) >= 0.0 ==> d >= 0.0
  {
  }

  lemma {:induction false} Divided(n: real, p: real)
    requires p > 0.0
    ensures Times(n / p, p) == n
  {
  }

  lemma {:induction false} Negated(x: real, p: real)
    ensures Times(-x, p) == -Times(x, p)
  {
  }

  /** Two numbers whose multiples by p differ by at most m are at most m / p apart. */
  lemma {:induction false} Near(q: real, x: real, m: real, p: real)
    requires p > 0.0 && -m <= Times(q, p) - Times(x, p) <= m
    ensures Abs(q - x) <= m / p
  {
    var h := m / p;
    Divided(m, p);
    Negated(x, p);
    Negated(h, p);
    Distribute(q, -x, -h, p);
    Distribute(q, -x, h, p);
    Sign(q + -x + -h, p);
    Sign(q + -x + h, p);
  }

  lemma {:induction false} ScaledError(x: real, p: real)
    requires p > 0.0
    ensures Abs(Scaled(x, p) - x) <= 0.5 / p
  {
    Divided(RoundHalfEven(Times(x, p)) as real, p);
    Near(Scaled(x, p), x, 0.5, p);
  }

  lemma {:induction false} ScaledSum(a: real, b: real, p: real)
    requires p > 0.0
    ensures Abs(Scaled(a + b, p) - (Scaled(a, p) + Scaled(b, p))) <= 1.0 / p
  {
    Distribute(a, b, 0.0, p);
    var x, y, z := RoundHalfEven(Times(a, p)), RoundHalfEven(Times(b, p)), RoundHalfEven(Times(a + b + 0.0, p));
    Divided(x as real, p);
    Divided(y as real, p);
    Divided(z as real, p);
    assert Times(0.0, p) == 0.0;
    assert -1 <= z - x - y <= 1;
    Distribute(Scaled(a, p), Scaled(b, p), 0.0, p);
    Near(Scaled(a + b, p), Scaled(a, p) + Scaled(b, p), 1.0, p);
  }

  /** A rounded value is off by at most half a unit of its last digit. */
  lemma {:induction false} RoundError(x: real, k: nat)
    ensures Abs(RoundTo(x, k) - x) <= 0.5 / Pow10(k) as real
  {
    ScaledError(x, Pow10(k) as real);
  }

  /** Rounding the sum of two numbers and summing their rounded values can differ, but only by whole
      units, hence by at most one although three roundings are involved. */
  lemma {:induction false} RoundedSumWithinOneUnit(a: real, b: real, k: nat)
    ensures Abs(RoundTo(a + b, k) - (RoundTo(a, k) + RoundTo(b, k))) <= 1.0 / Pow10(k) as real
  {
    ScaledSum(a, b, Pow10(k) as real);
  }

  /** Rounding never changes the sign. */
  lemma {:induction false} RoundSign(x: real, k: nat)
    ensures x >= 0.0 ==> RoundTo(x, k) >= 0.0
    ensures x <= 0.0 ==> RoundTo(x, k) <= 0.0
  {
    var p := Pow10(k) as real;
    TimesSign(x, p);
    Divided(RoundHalfEven(Times(x, p)) as real, p);
    Sign(RoundTo(x, k), p);
  }

  lemma {:induction false} TimesSign(x: real, p: real)
    requires p > 0.0
    ensures x >= 0.0 ==> Times(x, p) >= 0.0
    ensures x <= 0.0 ==> Times(x, p) <= 0.0
  {
  }

  /** Rounding gives a whole number of units, and from the middle between two the even one. */
  lemma {:induction false} RoundExactly(x: real, k: nat) returns (n: int)
    ensures Times(RoundTo(x, k), Pow10(k) as real) == n as real
    ensures -0.5 <= n as real - Times(x, Pow10(k) as real) <= 0.5
    ensures n as real - Times(x, Pow10(k) as real) == 0.5 || n as real - Times(x, Pow10(k) as real) == -0.5 ==> n % 2 == 0
  {
    n := RoundHalfEven(Times(x, Pow10(k) as real));
    Divided(n as real, Pow10(k) as real);
  }

  lemma {:induction false} PowersOfTen(k: nat)
    ensures Pow10(0) == 1 && Pow10(k + 1) == 10 * Pow10(k)
  {
  }
}
