/**
 * The arithmetic helpers the views lean on: Math.min/Math.max clamping,
 * Math.round, Math.max(...xs)/Math.min(...xs) over a list, and reduce sums.
 */
module Numeric {
  import opened Types

  /** `Math.min(hi, Math.max(lo, x))`. */
  function Clamp(lo: real, hi: real, x: real): (r: real)
    requires lo <= hi
    ensures lo <= r <= hi
    ensures lo <= x <= hi ==> r == x
    ensures x < lo ==> r == lo
    ensures hi < x ==> r == hi
  {
    if x < lo then lo else if hi < x then hi else x
  }

  lemma ClampMonotone(lo: real, hi: real, x: real, y: real)
    requires lo <= hi && x <= y
    ensures Clamp(lo, hi, x) <= Clamp(lo, hi, y)
  {
  }

  /** `Math.round(x)`: the nearest integer, halves rounded up. */
  function RoundHalfUp(x: real): (n: int)
    ensures x - 0.5 < n as real <= x + 0.5
  {
    (x + 0.5).Floor
  }

  /** Rounding never reverses the order of two numbers. */
  lemma RoundHalfUpMonotone(x: real, y: real)
    requires x <= y
    ensures RoundHalfUp(x) <= RoundHalfUp(y)
  {
  }

  /** `Math.max(...xs)`; None stands for the -Infinity of an empty list. */
  function Max(xs: seq<real>): (m: Option<real>)
    ensures m.None? <==> xs == []
    ensures m.Some? ==> m.value in xs
    ensures m.Some? ==> forall i :: 0 <= i < |xs| ==> xs[i] <= m.value
  {
    if xs == [] then None
    else
      var rest := Max(xs[1..]);
      if rest.None? || rest.value <= xs[0] then Some(xs[0]) else rest
  }

  /** `Math.min(...xs)`; None stands for the +Infinity of an empty list. */
  function Min(xs: seq<real>): (m: Option<real>)
    ensures m.None? <==> xs == []
    ensures m.Some? ==> m.value in xs
    ensures m.Some? ==> forall i :: 0 <= i < |xs| ==> m.value <= xs[i]
  {
    if xs == [] then None
    else
      var rest := Min(xs[1..]);
      if rest.None? || xs[0] <= rest.value then Some(xs[0]) else rest
  }

  /** On a non-empty list the largest element is at least the smallest. */
  lemma MaxAtLeastMin(xs: seq<real>)
    requires xs != []
    ensures Max(xs).Some? && Min(xs).Some? && Min(xs).value <= Max(xs).value
  {
    assert Min(xs).value <= xs[0] <= Max(xs).value;
  }

  /** A `Math.random()` result: a number in [0, 1). */
  predicate UnitInterval(r: real)
  {
    0.0 <= r < 1.0
  }

  /** `xs.reduce((sum, x) => sum + f(x), 0)`. */
  function SumOf<T>(xs: seq<T>, f: T -> real): (s: real)
    ensures xs == [] ==> s == 0.0
  {
    if xs == [] then 0.0 else SumOf(xs[..|xs| - 1], f) + f(xs[|xs| - 1])
  }

  /** A sum of |xs| terms each within [lo, hi] lies within [lo*|xs|, hi*|xs|]. */
  lemma {:induction false} SumOfBounds<T>(xs: seq<T>, f: T -> real, lo: real, hi: real)
    requires forall i :: 0 <= i < |xs| ==> lo <= f(xs[i]) <= hi
    ensures lo * |xs| as real <= SumOf(xs, f) <= hi * |xs| as real
  {
    if xs != [] {
      var init := xs[..|xs| - 1];
      assert forall i :: 0 <= i < |init| ==> init[i] == xs[i];
      SumOfBounds(init, f, lo, hi);
      assert lo * |xs| as real == lo * |init| as real + lo;
      assert hi * |xs| as real == hi * |init| as real + hi;
    }
  }

  /** A mean of terms within [lo, hi] lies within [lo, hi]. */
  lemma MeanBounds(sum: real, n: real, lo: real, hi: real)
    requires n > 0.0 && lo * n <= sum <= hi * n
    ensures lo <= sum / n <= hi
  {
    assert sum / n * n == sum;
  }

  /** A JavaScript number as far as the views can tell: a finite value, one
      of the two infinities a division by zero produces, or NaN. Rounding of
      doubles and the sign of zero are not modelled. */
  datatype Num = Fin(v: real) | PosInf | NegInf | NaN

  /** `a / b` in JavaScript: a non-zero divisor gives the exact quotient; a
      zero divisor gives an infinity of the dividend's sign, or NaN for 0 / 0. */
  function Div(a: real, b: real): (q: Num)
    ensures b != 0.0 ==> q == Fin(a / b)
    ensures q.NaN? <==> a == 0.0 && b == 0.0
    ensures q.PosInf? <==> a > 0.0 && b == 0.0
    ensures q.NegInf? <==> a < 0.0 && b == 0.0
  {
    if b != 0.0 then Fin(a / b)
    else if a > 0.0 then PosInf
    else if a < 0.0 then NegInf
    else NaN
  }

  /** `x + y` in JavaScript: NaN is absorbing and opposite infinities cancel to NaN. */
  function AddNum(x: Num, y: Num): (r: Num)
    ensures x.Fin? && y.Fin? ==> r == Fin(x.v + y.v)
    ensures x.NaN? || y.NaN? ==> r.NaN?
    ensures x.Fin? && !y.Fin? ==> r == y
  {
    match (x, y)
    case (Fin(a), Fin(b)) => Fin(a + b)
    case (NaN, _) => NaN
    case (_, NaN) => NaN
    case (PosInf, NegInf) => NaN
    case (NegInf, PosInf) => NaN
    case (Fin(_), _) => y
    case (_, _) => x
  }

  /** `x * c` in JavaScript for a positive finite factor c. */
  function ScaleNum(x: Num, c: real): (r: Num)
    requires c > 0.0
    ensures x.Fin? ==> r == Fin(x.v * c)
    ensures !x.Fin? ==> r == x
  {
    if x.Fin? then Fin(x.v * c) else x
  }

  /** `Math.min(hi, Math.max(lo, x))`: infinities are pinned to the bounds and
      NaN passes through both. */
  function ClampNum(lo: real, hi: real, x: Num): (r: Num)
    requires lo <= hi
    ensures r.NaN? <==> x.NaN?
    ensures r.Fin? ==> lo <= r.v <= hi
    ensures x.Fin? ==> r == Fin(Clamp(lo, hi, x.v))
    ensures x.PosInf? ==> r == Fin(hi)
    ensures x.NegInf? ==> r == Fin(lo)
  {
    match x
    case Fin(a) => Fin(Clamp(lo, hi, a))
    case PosInf => Fin(hi)
    case NegInf => Fin(lo)
    case NaN => NaN
  }
}
