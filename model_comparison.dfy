/**
 * The disparity cards of the model comparison page (src/sections/ModelComparison.tsx):
 * each attribute's disparity coloured in three tiers and drawn as a bar
 * twice its value in percent, the extreme approval rates under it, and a
 * simulated debiased disparity scaled by a random factor in [0.5, 0.7).
 *
 * The Math.random() draw is a parameter `r` with 0 <= r < 1.
 */
module ModelComparisonSection {
  import opened Types
  import opened Numeric
  import DisparityBarChart

  datatype Tier = Red | Amber | Green

  /** `disparity > 0.2 ? 'bg-red-500' : disparity > 0.1 ? 'bg-amber-500' : 'bg-green-500'`. */
  function DisparityTier(disparity: real): (t: Tier)
    ensures t == Red <==> disparity > 0.2
    ensures t == Amber <==> 0.1 < disparity <= 0.2
    ensures t == Green <==> disparity <= 0.1
  {
    if disparity > 0.2 then Red else if disparity > 0.1 then Amber else Green
  }

  /** Orders the tiers from worst to best. */
  function Rank(t: Tier): nat
  {
    match t
    case Red => 0
    case Amber => 1
    case Green => 2
  }

  /** A smaller disparity never gets a worse tier. */
  lemma TierAntitone(a: real, b: real)
    requires a <= b
    ensures Rank(DisparityTier(b)) <= Rank(DisparityTier(a))
  {
  }

  /** `Math.min(100, disparity * 200)`: the bar never overflows its track, and
      below a disparity of 0.5 it is exactly twice the disparity in percent. */
  function DisparityBarWidth(disparity: real): (w: real)
    ensures w <= 100.0
    ensures disparity >= 0.0 ==> w >= 0.0
    ensures disparity <= 0.5 ==> w == disparity * 200.0
    ensures disparity >= 0.5 ==> w == 100.0
  {
    if disparity * 200.0 < 100.0 then disparity * 200.0 else 100.0
  }

  /** The "Max approval rate" and "Min approval rate" of a metric: Math.max
      and Math.min over its categories' rates, None for the -Infinity and
      +Infinity of an empty list. With at least one category the shown
      maximum is never below the shown minimum. */
  lemma ExtremeRates(metric: DisparityMetric)
    ensures var rates := DisparityBarChart.Rates(metric.categories);
      && (Max(rates).None? <==> metric.categories == [])
      && (Min(rates).None? <==> metric.categories == [])
      && (metric.categories != [] ==> Min(rates).value <= Max(rates).value)
  {
    var rates := DisparityBarChart.Rates(metric.categories);
    if metric.categories != [] {
      MaxAtLeastMin(rates);
    }
  }


  /** `Math.random() * 0.2 + 0.5`. */
  function ReductionFactor(r: real): (f: real)
    requires UnitInterval(r)
    ensures 0.5 <= f < 0.7
  {
    r * 0.2 + 0.5
  }

  /** `metric.disparity * (Math.random() * 0.2 + 0.5)`. */
  function ReducedDisparity(disparity: real, r: real): (d: real)
    requires UnitInterval(r)
    ensures disparity >= 0.0 ==> 0.5 * disparity <= d <= disparity
    ensures disparity > 0.0 ==> d < disparity
  {
    var f := ReductionFactor(r);
    assert disparity >= 0.0 ==> disparity * f <= disparity * 1.0;
    disparity * f
  }

  /** `100 - x` on a JavaScript number. */
  function HundredMinus(x: Num): (y: Num)
    ensures x.Fin? ==> y == Fin(100.0 - x.v)
    ensures x.NaN? <==> y.NaN?
  {
    match x
    case Fin(v) => Fin(100.0 - v)
    case PosInf => NegInf
    case NegInf => PosInf
    case NaN => NaN
  }

  /** `100 - (reducedDisparity / metric.disparity) * 100`, the shown reduction. */
  function ShownReduction(disparity: real, r: real): (p: Num)
    requires UnitInterval(r)
    ensures p.NaN? <==> disparity == 0.0
  {
    HundredMinus(ScaleNum(Div(ReducedDisparity(disparity, r), disparity), 100.0))
  }

  /** The "30-50% improvement" of the source's comment holds: for every
      non-zero disparity the shown reduction lies in (30, 50], and it is
      100 minus a hundred times the random factor. A zero disparity is
      reduced to zero, and 0 / 0 shows NaN. */
  lemma ReductionBand(disparity: real, r: real)
    requires UnitInterval(r)
    ensures disparity != 0.0 ==> ShownReduction(disparity, r) == Fin(100.0 - ReductionFactor(r) * 100.0)
    ensures disparity != 0.0 ==> 30.0 < ShownReduction(disparity, r).v <= 50.0
    ensures disparity == 0.0 ==> ShownReduction(disparity, r).NaN?
  {
    if disparity != 0.0 {
      var f := ReductionFactor(r);
      assert disparity * f / disparity == f;
    }
  }

  /** The debiased bar is never coloured worse, nor drawn longer, than the
      original. */
  lemma ReducedNeverWorse(disparity: real, r: real)
    requires UnitInterval(r)
    ensures Rank(DisparityTier(disparity)) <= Rank(DisparityTier(ReducedDisparity(disparity, r)))
    ensures disparity >= 0.0 ==> DisparityBarWidth(ReducedDisparity(disparity, r)) <= DisparityBarWidth(disparity)
  {
    var d := ReducedDisparity(disparity, r);
    if disparity >= 0.0 {
      TierAntitone(d, disparity);
    } else {
      assert disparity * ReductionFactor(r) < 0.0;
    }
  }
}
