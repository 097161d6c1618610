/**
 * The axis arithmetic of the plotter in nsc/scons-time.py, with Python 2's integer division.
 */
module PlotScale {
  import opened Common

  function Pow10(k: nat): (p: nat)
    ensures p >= 1
  {
    if k == 0 then 1 else 10 * Pow10(k - 1)
  }

  /** A fifth of `largest` cut to its first digit, which puts between five and nine lines below
      `largest`. */
  predicate GoodIncrement(largest: int, increment: int, d: int, k: nat) {
    && increment == d * Pow10(k) && 1 <= d <= 9
    && increment <= largest / 5 < increment + Pow10(k)
    && 5 * increment <= largest < 10 * increment
  }

  ghost predicate IsIncrement(largest: int, increment: int) {
    exists d: int, k: nat :: GoodIncrement(largest, increment, d, k)
  }

  lemma DivTen(i: int, p: int, v: int)
    requires p >= 1 && i * p <= v < (i + 1) * p
    ensures (i / 10) * (10 * p) <= v < (i / 10 + 1) * (10 * p)
  {
    var q := i / 10;
    assert 10 * q <= i && i + 1 <= 10 * (q + 1);
    assert (10 * q) * p <= i * p;
    assert (i + 1) * p <= (10 * (q + 1)) * p;
    assert q * (10 * p) == (10 * q) * p;
    assert (q + 1) * (10 * p) == (10 * (q + 1)) * p;
  }

  lemma LinesBelow(largest: int, i: int, p: int)
    requires p >= 1 && 1 <= i <= 9 && i * p <= largest / 5 < (i + 1) * p
    ensures 5 * (i * p) <= largest < 10 * (i * p)
  {
    assert largest < 5 * (largest / 5 + 1);
    assert (i + 1) * p <= (2 * i) * p;
    assert (2 * i) * p == 2 * (i * p);
  }

  method IncrementSize(largest: int) returns (increment: int)
    ensures largest >= 5 ==> IsIncrement(largest, increment)
    ensures 0 <= largest < 5 ==> increment == largest
    ensures largest < 0 ==> increment < 0 && 5 * increment <= largest < 5 * increment + 5
  {
    var i := largest / 5;
    if i == 0 {
      return largest;
    }
    var multiplier := 1;
    ghost var k := 0;
    while i >= 10
      invariant multiplier == Pow10(k)
      invariant largest < 0 ==> i == largest / 5 && multiplier == 1
      invariant largest >= 5 ==> i >= 1 && i * multiplier <= largest / 5 < (i + 1) * multiplier
    {
      DivTen(i, multiplier, largest / 5);
      i := i / 10;
      multiplier := multiplier * 10;
      k := k + 1;
    }
    if largest >= 5 {
      LinesBelow(largest, i, multiplier);
      assert (i + 1) * multiplier == i * multiplier + multiplier;
      assert GoodIncrement(largest, i * multiplier, i, k);
    }
    increment := i * multiplier;
  }

  lemma RoundUp(largest: int, increment: int)
    requires increment >= 1 && 1 <= largest <= 10 * increment
    ensures var n := (largest + increment - 1) / increment;
      1 <= n <= 10 && largest <= n * increment < largest + increment
  {
    var n := (largest + increment - 1) / increment;
    var r := (largest + increment - 1) % increment;
    assert largest + increment - 1 == n * increment + r;
    assert n < 1 ==> n * increment <= 0;
    assert n > 10 ==> n * increment >= 11 * increment;
  }

  /** `int(x)`: towards zero. */
  function Truncated(x: real): int {
    if x >= 0.0 then x.Floor else -((-x).Floor)
  }

  /** Python's division, which rounds down for divisors of either sign. */
  function FloorDiv(a: int, b: int): (q: int)
    requires b != 0
    ensures b > 0 ==> q * b <= a < q * b + b
    ensures b < 0 ==> q * b + b < a <= q * b
  {
    if b > 0 then
      assert a == (a / b) * b + a % b;
      a / b
    else
      assert -a == ((-a) / (-b)) * (-b) + (-a) % (-b);
      (-a) / (-b)
  }

  /** The top of the axis for `t`, the value cut to an integer plus one. When `t` is positive
      the top is the first multiple of the increment from `t` on, at most ten increments high;
      the division fails exactly when `t` is zero; and a negative `t` has a negative increment
      and a top below it. */
  method MaxGraphValue(x: real) returns (top: Option<int>, ghost increment: int, ghost lines: int)
    ensures top.None? <==> Truncated(x) == -1
    ensures top.Some? ==> top.value == lines * increment
    ensures x >= 0.0 ==> x < top.value as real && top.value < x.Floor + 1 + increment
    ensures var t := Truncated(x) + 1;
      && (t > 0 ==> increment >= 1 && 1 <= lines <= 10 && t <= top.value < t + increment)
      && (t >= 5 ==> IsIncrement(t, increment)) && (0 < t < 5 ==> increment == t)
      && (t < 0 ==> increment < 0 && 5 * increment <= t < 5 * increment + 5 && t + increment - 1 <= top.value < t - 1)
  {
    var largest := Truncated(x) + 1;
    var step := IncrementSize(largest);
    if step == 0 {
      return None, 0, 0;
    }
    var n := FloorDiv(largest + step - 1, step);
    if largest > 0 {
      if largest >= 5 {
        ghost var d, k :| GoodIncrement(largest, step, d, k);
      }
      hide IsIncrement;
      RoundUp(largest, step);
      assert n == (largest + step - 1) / step;
      assert x >= 0.0 ==> x < largest as real;
    }
    increment, lines, top := step, n, Some(n * step);
  }
}
