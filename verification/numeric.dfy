/** Numbers as the browser code sees them: parsed form values, JavaScript's
    `Math.round` and `Number.prototype.toFixed(1)`, all over exact reals. */
module Numeric {

  /** A value after `+x`, `Number(x)` or `parseFloat(x)`: either a finite
      number or NaN. `NaN` also stands for `null` and `undefined`, which
      behave the same way under `x || d`. */
  datatype Num = Finite(v: real) | NaN {

    /** Falsy numbers are 0 (and -0) and NaN. */
    predicate Falsy() {
      NaN? || v == 0.0
    }

    /** `x || default`: a falsy number is replaced by the default. */
    function Or(default: real): (r: real)
      ensures Falsy() ==> r == default
      ensures !Falsy() ==> Finite? && r == v && r != 0.0
    {
      if Falsy() then default else v
    }
  }

  /** `n` is the integer nearest to `x`, ties going towards +infinity. */
  predicate IsRoundOf(n: int, x: real) {
    x - 0.5 < n as real <= x + 0.5
  }

  predicate IsWhole(x: real) {
    x == x.Floor as real
  }

  /** `Math.round(x)`, which is `floor(x + 1/2)` for every finite x. */
  function Round(x: real): (n: int)
    ensures IsRoundOf(n, x)
  {
    (x + 0.5).Floor
  }

  /** The nearest-integer relation has exactly one solution, so `Round` is
      the only function meeting its contract. */
  lemma RoundUnique(n: int, x: real)
    requires IsRoundOf(n, x)
    ensures n == Round(x)
  {
  }

  /** The value of `n` tenths. */
  function Tenths(n: int): (r: real)
    ensures r * 10.0 == n as real
    ensures IsWhole(r * 10.0)
  {
    n as real / 10.0
  }

  /** `+(x).toFixed(1)`: the nearest tenth, a tie going away from zero,
      because `toFixed` rounds the magnitude and then puts the sign back.
      Together with `IsWhole(r * 10.0)` the two half-open bounds leave one
      candidate (see `ToFixed1Unique`). */
  function ToFixed1(x: real): (r: real)
    ensures IsWhole(r * 10.0)
    ensures x >= 0.0 ==> -0.05 < r - x <= 0.05
    ensures x < 0.0 ==> -0.05 <= r - x < 0.05
    ensures x >= 0.0 ==> r >= 0.0
  {
    if x < 0.0 then Tenths(-Round(-x * 10.0)) else Tenths(Round(x * 10.0))
  }

  /** The tenth `ToFixed1` picks is the only one within its bounds. */
  lemma ToFixed1Unique(x: real, r: real)
    requires IsWhole(r * 10.0)
    requires x >= 0.0 ==> -0.05 < r - x <= 0.05
    requires x < 0.0 ==> -0.05 <= r - x < 0.05
    ensures r == ToFixed1(x)
  {
    var m := (r * 10.0).Floor;
    if x < 0.0 {
      RoundUnique(-m, -x * 10.0);
    } else {
      RoundUnique(m, x * 10.0);
    }
  }

  /** Ties: 0.25 becomes 0.3 and -0.25 becomes -0.3. */
  lemma ToFixed1Ties()
    ensures ToFixed1(0.25) == 0.3
    ensures ToFixed1(-0.25) == -0.3
  {
    ToFixed1Unique(0.25, 0.3);
    ToFixed1Unique(-0.25, -0.3);
  }

  /** Rounding to one decimal is symmetric about zero. */
  lemma ToFixed1Odd(x: real)
    ensures ToFixed1(-x) == -ToFixed1(x)
  {
  }

  /** A value that already has one decimal comes back unchanged, so applying
      `toFixed(1)` twice is the same as applying it once. */
  lemma ToFixed1KeepsTenths(x: real)
    requires IsWhole(x * 10.0)
    ensures ToFixed1(x) == x
  {
    ToFixed1Unique(x, x);
  }

  lemma ToFixed1Idempotent(x: real)
    ensures ToFixed1(ToFixed1(x)) == ToFixed1(x)
  {
    ToFixed1KeepsTenths(ToFixed1(x));
  }
}
