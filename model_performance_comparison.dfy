/**
 * The performance table of the model comparison (src/components/dashboard/ModelPerformanceComparison.tsx):
 * five metrics, each with the relative change from the original to the
 * debiased model printed to one decimal, coloured and signed by whether the
 * PRINTED change parses back as non-negative, and an insight sentence
 * chosen by the F1 scores.
 */
module ModelPerformanceComparison {
  import opened Types
  import opened Numeric

  datatype MetricKey = Accuracy | Precision | Recall | F1Score | Auc

  datatype MetricRow = MetricRow(name: string, key: MetricKey)

  /** The five rows of the table, in order. */
  const Metrics: seq<MetricRow> := [
    MetricRow("Accuracy", Accuracy), MetricRow("Precision", Precision), MetricRow("Recall", Recall),
    MetricRow("F1 Score", F1Score), MetricRow("AUC", Auc)]

  /** `data.original[metric.key]` / `data.debiased[metric.key]`. */
  function ValueOf(p: ModelPerformance, key: MetricKey): (v: real)
    ensures v in [p.accuracy, p.precision, p.recall, p.f1Score, p.auc]
  {
    match key
    case Accuracy => p.accuracy
    case Precision => p.precision
    case Recall => p.recall
    case F1Score => p.f1Score
    case Auc => p.auc
  }

  /** Every metric of the performance record has exactly one row. */
  lemma EachMetricOnce(key: MetricKey)
    ensures exists i :: 0 <= i < |Metrics| && Metrics[i].key == key
    ensures forall i, j :: 0 <= i < j < |Metrics| ==> Metrics[i].key != Metrics[j].key
  {
    match key
    case Accuracy => assert Metrics[0].key == key;
    case Precision => assert Metrics[1].key == key;
    case Recall => assert Metrics[2].key == key;
    case F1Score => assert Metrics[3].key == key;
    case Auc => assert Metrics[4].key == key;
  }

  /** `((debiased - original) / original) * 100` before formatting. */
  function PercentChange(original: real, debiased: real): (c: Num)
    ensures original != 0.0 ==> c == Fin((debiased - original) / original * 100.0)
    ensures original != 0.0 && debiased == original ==> c == Fin(0.0)
    ensures original > 0.0 ==> (c.v > 0.0 <==> debiased > original)
    ensures original > 0.0 ==> (c.v < 0.0 <==> debiased < original)
    ensures original == 0.0 ==> (c.NaN? <==> debiased == 0.0)
  {
    ScaleNum(Div(debiased - original, original), 100.0)
  }

  /** The string `toFixed(1)` prints: a sign, and the magnitude rounded to
      tenths (the nearest multiple of 0.1, the larger one on a tie), or the
      texts of the infinities and NaN. The sign is printed for every negative
      input, even one whose magnitude rounds to 0, giving "-0.0". */
  datatype Fixed1 = Tenths(negative: bool, tenths: nat) | Infinity(negativeInf: bool) | NotANumber

  function ToFixed1(x: Num): (f: Fixed1)
    ensures x.Fin? ==> f.Tenths? && (f.negative <==> x.v < 0.0)
    ensures x.Fin? ==> var mag := if x.v < 0.0 then -x.v else x.v;
      mag * 10.0 - 0.5 < f.tenths as real <= mag * 10.0 + 0.5
  {
    match x
    case Fin(v) =>
      var mag := if v < 0.0 then -v else v;
      Tenths(v < 0.0, RoundHalfUp(mag * 10.0))
    case PosInf => Infinity(false)
    case NegInf => Infinity(true)
    case NaN => NotANumber
  }

  /** `parseFloat(percentChange) >= 0`. A printed "-0.0" parses to -0, which
      is `>= 0`; "NaN" parses to NaN, which is not. */
  function IsPositiveChange(f: Fixed1): (b: bool)
    ensures f.Tenths? ==> (b <==> !f.negative || f.tenths == 0)
    ensures f.NotANumber? ==> !b
  {
    match f
    case Tenths(negative, tenths) =>
      (if negative then -(tenths as real) / 10.0 else tenths as real / 10.0) >= 0.0
    case Infinity(negativeInf) => !negativeInf
    case NotANumber => false
  }

  /** Because the test reads the printed string, the colour is green exactly
      when the unrounded change exceeds -0.05: a decrease too small to show
      in one decimal counts as positive. */
  lemma PositiveIffAboveMinusHalfTenth(original: real, debiased: real)
    requires original != 0.0
    ensures IsPositiveChange(ToFixed1(PercentChange(original, debiased)))
        <==> PercentChange(original, debiased).v > -0.05
  {
    var v := PercentChange(original, debiased).v;
    var f := ToFixed1(Fin(v));
    if v < 0.0 {
      assert f.tenths == 0 <==> -v * 10.0 + 0.5 < 1.0;
    }
  }

  /** An unchanged metric shows "0.0", which counts as positive. */
  lemma NoChangeIsPositive(original: real)
    requires original != 0.0
    ensures ToFixed1(PercentChange(original, original)) == Tenths(false, 0)
    ensures IsPositiveChange(ToFixed1(PercentChange(original, original)))
  {
  }

  /** `isPositiveChange ? '+' : ''` and `isPositiveChange ? 'text-green-600' : 'text-red-600'`. */
  datatype Cell = Cell(plus: bool, green: bool, change: Fixed1)

  function ChangeCell(original: real, debiased: real): (c: Cell)
    ensures c.plus <==> IsPositiveChange(c.change)
    ensures c.green <==> IsPositiveChange(c.change)
    ensures c.change == ToFixed1(PercentChange(original, debiased))
  {
    var change := ToFixed1(PercentChange(original, debiased));
    var positive := IsPositiveChange(change);
    Cell(positive, positive, change)
  }

  /** A drop of 0.04 % (1 to 0.9996) prints "-0.0" and is shown as "+-0.0%"
      in green. */
  lemma NegativeZeroShownPositive()
    ensures ChangeCell(1.0, 0.9996) == Cell(true, true, Tenths(true, 0))
  {
    assert PercentChange(1.0, 0.9996) == Fin(-0.04);
  }

  datatype Insight = Improved | SlightlyReduced

  /** `data.debiased.f1Score >= data.original.f1Score ? ' improved' : ' slightly reduced'`. */
  function F1Insight(data: ModelComparison): (i: Insight)
    ensures i == Improved <==> data.debiased.f1Score >= data.original.f1Score
  {
    if data.debiased.f1Score >= data.original.f1Score then Improved else SlightlyReduced
  }

  /** With a positive original F1, an "improved" insight always comes with a
      green F1 row; the converse fails, since a tiny drop is still green. */
  lemma InsightImpliesGreenF1(data: ModelComparison)
    requires data.original.f1Score > 0.0
    ensures F1Insight(data) == Improved ==> ChangeCell(data.original.f1Score, data.debiased.f1Score).green
  {
    PositiveIffAboveMinusHalfTenth(data.original.f1Score, data.debiased.f1Score);
  }

  lemma InsightAndRowCanDisagree()
    ensures var data := ModelComparison(ModelPerformance(0.8, 0.8, 0.8, 1.0, 0.8), ModelPerformance(0.8, 0.8, 0.8, 0.9996, 0.8));
      F1Insight(data) == SlightlyReduced && ChangeCell(data.original.f1Score, data.debiased.f1Score).green
  {
    NegativeZeroShownPositive();
  }
}
