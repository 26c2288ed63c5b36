/**
 * The bias sensitivity panel (src/components/detection/BiasSensitivityTest.tsx):
 * a linear what-if formula turning the fairness threshold and the protected
 * feature weight into four disparities and a fairness score, and a rating of
 * the printed score. The slider values are parameters.
 */
module BiasSensitivityTest {
  import opened Numeric

  /** `(0.8 - threshold) * 0.5`. */
  function ThresholdEffect(threshold: real): real
  {
    (0.8 - threshold) * 0.5
  }

  /** `(weight - 0.5) * 0.4`. */
  function WeightEffect(weight: real): real
  {
    (weight - 0.5) * 0.4
  }

  const BaseGenderGap: real := 0.15
  const BaseRaceGap: real := 0.20
  const BaseAgeGap: real := 0.10
  const BaseZipGap: real := 0.25

  /** `Math.max(0, base + thresholdEffect - weightEffect)`. */
  function Disparity(base: real, threshold: real, weight: real): (d: real)
    ensures d >= 0.0
    ensures d >= base + ThresholdEffect(threshold) - WeightEffect(weight)
    ensures d == 0.0 || d == base + ThresholdEffect(threshold) - WeightEffect(weight)
  {
    var raw := base + ThresholdEffect(threshold) - WeightEffect(weight);
    if raw > 0.0 then raw else 0.0
  }

  /** `Math.min(100, Math.max(0, 65 - thresholdEffect * 100 + weightEffect * 100))`,
      before `toFixed(0)`. */
  function FairnessScore(threshold: real, weight: real): (s: real)
    ensures 0.0 <= s <= 100.0
  {
    Clamp(0.0, 100.0, 65.0 - ThresholdEffect(threshold) * 100.0 + WeightEffect(weight) * 100.0)
  }

  datatype SensitivityResults = SensitivityResults(
    genderDisparity: real, raceDisparity: real, ageDisparity: real, zipDisparity: real,
    fairnessScore: int)

  /** getSensitivityResults, before the disparities are printed to two
      decimals; the score is printed by `toFixed(0)`, which for a
      non-negative number rounds halves up. */
  function SensitivityResultsOf(threshold: real, weight: real): (r: SensitivityResults)
    ensures r.genderDisparity >= 0.0 && r.raceDisparity >= 0.0
    ensures r.ageDisparity >= 0.0 && r.zipDisparity >= 0.0
    ensures 0 <= r.fairnessScore <= 100
  {
    SensitivityResults(
      Disparity(BaseGenderGap, threshold, weight), Disparity(BaseRaceGap, threshold, weight),
      Disparity(BaseAgeGap, threshold, weight), Disparity(BaseZipGap, threshold, weight),
      RoundHalfUp(FairnessScore(threshold, weight)))
  }

  /** At the initial slider values both effects vanish and the base gaps
      and a score of 65 are shown. */
  lemma DefaultsShowBaseGaps()
    ensures SensitivityResultsOf(0.8, 0.5) == SensitivityResults(0.15, 0.20, 0.10, 0.25, 65)
  {
    assert ThresholdEffect(0.8) == 0.0 && WeightEffect(0.5) == 0.0;
    assert Disparity(BaseGenderGap, 0.8, 0.5) == BaseGenderGap;
    assert Disparity(BaseRaceGap, 0.8, 0.5) == BaseRaceGap;
    assert Disparity(BaseAgeGap, 0.8, 0.5) == BaseAgeGap;
    assert Disparity(BaseZipGap, 0.8, 0.5) == BaseZipGap;
    assert FairnessScore(0.8, 0.5) == 65.0;
    assert RoundHalfUp(65.0) == 65;
  }

  /** Raising the weight or the threshold never widens a disparity and never
      lowers the score. */
  lemma Monotone(t1: real, w1: real, t2: real, w2: real, base: real)
    requires t1 <= t2 && w1 <= w2
    ensures Disparity(base, t2, w2) <= Disparity(base, t1, w1)
    ensures FairnessScore(t1, w1) <= FairnessScore(t2, w2)
  {
    ClampMonotone(0.0, 100.0,
      65.0 - ThresholdEffect(t1) * 100.0 + WeightEffect(w1) * 100.0,
      65.0 - ThresholdEffect(t2) * 100.0 + WeightEffect(w2) * 100.0);
  }

  /** Over the sliders' ranges (threshold 0.6 to 0.9, weight 0.1 to 0.9) the
      clamp never bites: the score runs from 39 to 86. */
  lemma SliderRangeScore(threshold: real, weight: real)
    requires 0.6 <= threshold <= 0.9 && 0.1 <= weight <= 0.9
    ensures FairnessScore(threshold, weight) == 65.0 - ThresholdEffect(threshold) * 100.0 + WeightEffect(weight) * 100.0
    ensures 39.0 <= FairnessScore(threshold, weight) <= 86.0
  {
  }

  datatype Rating = Good | Fair | Poor

  /** getFairnessRating: 80 and above Good, 60 and above Fair, Poor below. */
  function FairnessRating(score: int): (r: Rating)
    ensures r == Good <==> score >= 80
    ensures r == Fair <==> 60 <= score < 80
    ensures r == Poor <==> score < 60
  {
    if score >= 80 then Good else if score >= 60 then Fair else Poor
  }

  /** The rating reads the printed, rounded score: on the unrounded score its
      bands start half a point early. */
  lemma RatingOfPrintedScore(threshold: real, weight: real)
    ensures var s := FairnessScore(threshold, weight);
      var r := FairnessRating(SensitivityResultsOf(threshold, weight).fairnessScore);
      && (r == Good <==> s >= 79.5)
      && (r == Fair <==> 59.5 <= s < 79.5)
  {
  }
}
