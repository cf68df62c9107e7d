/**
 Exact-real stand-ins for the JavaScript number operations the fee engines use:
 `Math.ceil`, `Math.round`, `Math.max`, `Math.min` and `Number.prototype.toFixed`.
 Binary floating point is not modelled: every value is an exact rational.
 */
module Numeric {

  /** True when `x` has no fractional part (`Number.isInteger` on a finite number). */
  predicate IsInteger(x: real) {
    x.Floor as real == x
  }

  function Max(a: real, b: real): (r: real)
    ensures r >= a && r >= b
    ensures r == a || r == b
  {
    if a >= b then a else b
  }

  function Min(a: real, b: real): (r: real)
    ensures r <= a && r <= b
    ensures r == a || r == b
  {
    if a <= b then a else b
  }

  /** `Math.ceil`: the least integer not below `x`. */
  function Ceil(x: real): (r: int)
    ensures x <= r as real < x + 1.0
  {
    -((-x).Floor)
  }

  /** `Math.round`: the nearest integer, ties going towards positive infinity. */
  function MathRound(x: real): (r: int)
    ensures x - 0.5 < r as real <= x + 0.5
  {
    (x + 0.5).Floor
  }

  /** `x * 10^digits`, written as repeated multiplication by ten. */
  function Shift(x: real, digits: nat): real {
    if digits == 0 then x else 10.0 * Shift(x, digits - 1)
  }

  /** `y / 10^digits`, written as repeated division by ten. */
  function Unshift(y: real, digits: nat): real {
    if digits == 0 then y else Unshift(y, digits - 1) / 10.0
  }

  /** `x` is a whole number of units of the `digits`-th decimal place (for `digits == 2`: whole cents). */
  predicate OnGrid(x: real, digits: nat) {
    IsInteger(Shift(x, digits))
  }

  /** Rounds a non-negative magnitude to `digits` decimals, ties upwards. */
  function RoundMagnitude(y: real, digits: nat): (r: real)
    requires y >= 0.0
  {
    Unshift((Shift(y, digits) + 0.5).Floor as real, digits)
  }

  /**
   `+x.toFixed(digits)`: ECMAScript rounds the magnitude |x| to the nearest
   multiple of 10^-digits, a tie going to the larger one, and re-attaches the sign.
   */
  function ToFixed(x: real, digits: nat): real {
    if x < 0.0 then -RoundMagnitude(-x, digits) else RoundMagnitude(x, digits)
  }

  lemma IntFloor(k: int)
    ensures (k as real).Floor == k
  {
  }

  lemma {:induction false} ShiftUnshift(y: real, digits: nat)
    ensures Shift(Unshift(y, digits), digits) == y
  {
    if digits > 0 {
      // Shift(u / 10, d) == Shift(u, d) / 10 for the inner value u
      ShiftDivideTen(Unshift(y, digits - 1), digits - 1);
      ShiftUnshift(y, digits - 1);
    }
  }

  lemma {:induction false} ShiftDivideTen(u: real, digits: nat)
    ensures 10.0 * Shift(u / 10.0, digits) == Shift(u, digits)
  {
    if digits > 0 {
      ShiftDivideTen(u, digits - 1);
    }
  }

  lemma {:induction false} UnshiftShift(x: real, digits: nat)
    ensures Unshift(Shift(x, digits), digits) == x
  {
    ShiftUnshift(Shift(x, digits), digits);
    ShiftInjective(Unshift(Shift(x, digits), digits), x, digits);
  }

  lemma {:induction false} ShiftInjective(a: real, b: real, digits: nat)
    requires Shift(a, digits) == Shift(b, digits)
    ensures a == b
  {
    if digits > 0 {
      ShiftInjective(a, b, digits - 1);
    }
  }

  lemma {:induction false} ShiftMonotone(a: real, b: real, digits: nat)
    requires a <= b
    ensures Shift(a, digits) <= Shift(b, digits)
  {
    if digits > 0 {
      ShiftMonotone(a, b, digits - 1);
    }
  }

  lemma {:induction false} UnshiftMonotone(a: real, b: real, digits: nat)
    requires a <= b
    ensures Unshift(a, digits) <= Unshift(b, digits)
  {
    if digits > 0 {
      UnshiftMonotone(a, b, digits - 1);
    }
  }

  lemma {:induction false} ShiftNonnegative(a: real, digits: nat)
    requires a >= 0.0
    ensures Shift(a, digits) >= 0.0
  {
    ShiftMonotone(0.0, a, digits);
    ShiftZero(digits);
  }

  lemma {:induction false} ShiftZero(digits: nat)
    ensures Shift(0.0, digits) == 0.0
  {
    if digits > 0 {
      ShiftZero(digits - 1);
    }
  }

  lemma {:induction false} ShiftAdd(a: real, b: real, digits: nat)
    ensures Shift(a + b, digits) == Shift(a, digits) + Shift(b, digits)
  {
    if digits > 0 {
      ShiftAdd(a, b, digits - 1);
    }
  }

  lemma {:induction false} ShiftNegate(a: real, digits: nat)
    ensures Shift(-a, digits) == -Shift(a, digits)
  {
    if digits > 0 {
      ShiftNegate(a, digits - 1);
    }
  }

  lemma {:induction false} ShiftMultiply(k: real, a: real, digits: nat)
    ensures Shift(k * a, digits) == k * Shift(a, digits)
  {
    if digits > 0 {
      ShiftMultiply(k, a, digits - 1);
    }
  }

  lemma {:induction false} ShiftCompose(x: real, a: nat, b: nat)
    ensures Shift(Shift(x, a), b) == Shift(x, a + b)
  {
    if b > 0 {
      ShiftCompose(x, a, b - 1);
    }
  }

  lemma {:induction false} ShiftInteger(x: real, digits: nat)
    requires IsInteger(x)
    ensures IsInteger(Shift(x, digits))
  {
    if digits > 0 {
      ShiftInteger(x, digits - 1);
      MultiplyIntegers(10.0, Shift(x, digits - 1));
    }
  }

  lemma RoundMagnitudeNearest(y: real, digits: nat)
    requires y >= 0.0
    ensures RoundMagnitude(y, digits) >= 0.0
    ensures OnGrid(RoundMagnitude(y, digits), digits)
    ensures Shift(y, digits) - 0.5 < Shift(RoundMagnitude(y, digits), digits) <= Shift(y, digits) + 0.5
  {
    var n := (Shift(y, digits) + 0.5).Floor;
    ShiftUnshift(n as real, digits);
    IntFloor(n);
    ShiftNonnegative(y, digits);
    UnshiftMonotone(0.0, n as real, digits);
    UnshiftZero(digits);
  }

  lemma {:induction false} UnshiftZero(digits: nat)
    ensures Unshift(0.0, digits) == 0.0
  {
    if digits > 0 {
      UnshiftZero(digits - 1);
    }
  }

  /**
   The rounded value is a grid point within half a grid step of `x`, on the
   same side of zero as `x`: the nearest grid point, ties away from zero.
   */
  lemma ToFixedNearest(x: real, digits: nat)
    ensures OnGrid(ToFixed(x, digits), digits)
    ensures Shift(x, digits) - 0.5 <= Shift(ToFixed(x, digits), digits) <= Shift(x, digits) + 0.5
    ensures x >= 0.0 ==> ToFixed(x, digits) >= 0.0
    ensures x <= 0.0 ==> ToFixed(x, digits) <= 0.0
  {
    if x < 0.0 {
      var m := RoundMagnitude(-x, digits);
      RoundMagnitudeNearest(-x, digits);
      ShiftNegate(x, digits);
      ShiftNegate(m, digits);
      NegateInteger(Shift(m, digits));
    } else {
      RoundMagnitudeNearest(x, digits);
      if x == 0.0 {
        ShiftZero(digits);
        HalfAbove(0);
        UnshiftZero(digits);
      }
    }
  }

  lemma NegateInteger(a: real)
    requires IsInteger(a)
    ensures IsInteger(-a)
  {
    IntFloor(-a.Floor);
  }

  lemma HalfAbove(k: int)
    ensures (k as real + 0.5).Floor == k
  {
  }

  /** Rounding leaves a value that is already on the grid unchanged. */
  lemma ToFixedOnGrid(x: real, digits: nat)
    requires OnGrid(x, digits)
    ensures ToFixed(x, digits) == x
  {
    if x < 0.0 {
      ShiftNegate(x, digits);
      NegateInteger(Shift(x, digits));
      HalfAbove(Shift(-x, digits).Floor);
      UnshiftShift(-x, digits);
    } else {
      HalfAbove(Shift(x, digits).Floor);
      UnshiftShift(x, digits);
    }
  }

  lemma FloorMonotone(a: real, b: real)
    requires a <= b
    ensures a.Floor <= b.Floor
  {
  }

  /** On non-negative values rounding is monotone. */
  lemma ToFixedMonotone(x: real, y: real, digits: nat)
    requires 0.0 <= x <= y
    ensures ToFixed(x, digits) <= ToFixed(y, digits)
  {
    ShiftMonotone(x, y, digits);
    FloorMonotone(Shift(x, digits) + 0.5, Shift(y, digits) + 0.5);
    UnshiftMonotone((Shift(x, digits) + 0.5).Floor as real, (Shift(y, digits) + 0.5).Floor as real, digits);
  }

  /** Rounding a value that lies at or below a grid point never exceeds that point. */
  lemma ToFixedBelowGridPoint(x: real, bound: real, digits: nat)
    requires 0.0 <= x <= bound
    requires OnGrid(bound, digits)
    ensures ToFixed(x, digits) <= bound
  {
    ToFixedMonotone(x, bound, digits);
    ToFixedOnGrid(bound, digits);
  }

  lemma AddIntegers(a: real, b: real)
    requires IsInteger(a) && IsInteger(b)
    ensures IsInteger(a + b)
  {
    var k := a.Floor + b.Floor;
    assert a + b == k as real;
    IntFloor(k);
  }

  lemma MultiplyIntegers(a: real, b: real)
    requires IsInteger(a) && IsInteger(b)
    ensures IsInteger(a * b)
  {
    var k := a.Floor * b.Floor;
    assert a * b == k as real;
    IntFloor(k);
  }

  lemma OnGridAdd(a: real, b: real, digits: nat)
    requires OnGrid(a, digits) && OnGrid(b, digits)
    ensures OnGrid(a + b, digits)
  {
    ShiftAdd(a, b, digits);
    AddIntegers(Shift(a, digits), Shift(b, digits));
  }

  lemma OnGridScale(k: real, a: real, digits: nat)
    requires IsInteger(k) && OnGrid(a, digits)
    ensures OnGrid(k * a, digits)
  {
    ShiftMultiply(k, a, digits);
    MultiplyIntegers(k, Shift(a, digits));
    EqualInteger(k * Shift(a, digits), Shift(k * a, digits));
  }

  lemma EqualInteger(a: real, b: real)
    requires IsInteger(a) && a == b
    ensures IsInteger(b)
  {
  }

  lemma OnGridEqual(a: real, b: real, digits: nat)
    requires OnGrid(a, digits) && a == b
    ensures OnGrid(b, digits)
  {
  }

  lemma IntegerOnGrid(x: real, digits: nat)
    requires IsInteger(x)
    ensures OnGrid(x, digits)
  {
    ShiftInteger(x, digits);
  }

  lemma IntegerGap(a: real, b: real)
    requires IsInteger(a) && IsInteger(b) && a < b
    ensures a + 1.0 <= b
  {
    assert a.Floor < b.Floor;
  }

  lemma NextInteger(n: real)
    requires IsInteger(n)
    ensures IsInteger(n + 1.0)
  {
    IntFloor(n.Floor + 1);
  }

  /** The excess of one whole number over another, floored at zero, is whole. */
  lemma IntegerExcess(n: real, t: real)
    requires IsInteger(n) && IsInteger(t)
    ensures IsInteger(Max(n - t, 0.0))
  {
    IntFloor(n.Floor - t.Floor);
    IntFloor(0);
  }

  lemma MultiplyMonotone(a: real, b: real, f: real)
    requires a <= b && f >= 0.0
    ensures a * f <= b * f
  {
  }

  lemma MultiplyStrict(a: real, b: real, f: real)
    requires a < b && f > 0.0
    ensures a * f < b * f
  {
    assert b * f - a * f == (b - a) * f;
  }

  lemma MaxMonotone(a: real, b: real)
    requires a <= b
    ensures Max(a, 0.0) <= Max(b, 0.0)
  {
  }

  lemma CeilMonotone(x: real, y: real)
    requires x <= y
    ensures Ceil(x) <= Ceil(y)
  {
  }

  lemma CeilUnique(x: real, k: int)
    requires (k - 1) as real < x <= k as real
    ensures Ceil(x) == k
  {
  }

  lemma DividePositive(a: real, p: real)
    requires a > 0.0 && p > 0.0
    ensures a / p > 0.0
  {
  }

  lemma DivideMonotone(a: real, b: real, p: real)
    requires a <= b && p > 0.0
    ensures a / p <= b / p
  {
  }

  /** Scaling both sides of `(k-1)*p < a <= k*p` by `1/p`. */
  lemma DivideBetween(a: real, p: real, k: int)
    requires p > 0.0
    requires (k - 1) as real * p < a <= k as real * p
    ensures (k - 1) as real < a / p <= k as real
  {
    var q := a / p;
    assert q * p == a;
    if q <= (k - 1) as real {
      MultiplyMonotone(q, (k - 1) as real, p);
      assert false;
    }
    if q > k as real {
      MultiplyStrict(k as real, q, p);
      assert false;
    }
  }

  /** `Math.ceil(a / p)` for positive `a` and `p` lies in the bracket `((k-1)*p, k*p]`. */
  lemma CeilBracket(a: real, p: real)
    requires a > 0.0 && p > 0.0
    ensures (Ceil(a / p) - 1) as real * p < a <= Ceil(a / p) as real * p
  {
    var q := a / p;
    assert q * p == a;
    ScaleBracket(q, p, (Ceil(q) - 1) as real, Ceil(q) as real, a);
  }

  /** Scaling `lo < q <= hi` by a positive `p`, where `q * p == a`. */
  lemma ScaleBracket(q: real, p: real, lo: real, hi: real, a: real)
    requires p > 0.0 && q * p == a && lo < q <= hi
    ensures lo * p < a
    ensures a <= hi * p
  {
    ProductNonnegative(hi - q, p);
    ProductPositive(q - lo, p);
    assert (q - lo) * p == q * p - lo * p;
    assert (hi - q) * p == hi * p - q * p;
  }

  lemma ProductPositive(x: real, f: real)
    requires x > 0.0 && f > 0.0
    ensures x * f > 0.0
  {
  }

  lemma ProductNonnegative(x: real, f: real)
    requires x >= 0.0 && f >= 0.0
    ensures x * f >= 0.0
  {
  }
}
