/**
 * The feature-importance chart (src/components/dashboard/FeatureImportanceChart.tsx):
 * the features sorted by importance, each with a badge and a bar coloured by
 * its bias potential and as wide as its importance in percent.
 */
module FeatureImportanceChart {
  import opened Types
  import opened Sorting
  import opened Numeric

  function Importance(f: FeatureImportance): real
  {
    f.importance
  }

  /** `[...features].sort((a, b) => b.importance - a.importance)`: a copy of
      the features, most important first. */
  function SortedFeatures(features: seq<FeatureImportance>): (r: seq<FeatureImportance>)
    ensures SortedDesc(r, Importance)
    ensures multiset(r) == multiset(features)
    ensures |r| == |features|
  {
    SortDesc(features, Importance)
  }

  /** The first row shows a most important feature. */
  lemma FirstIsMostImportant(features: seq<FeatureImportance>)
    requires features != []
    ensures forall i :: 0 <= i < |features| ==> features[i].importance <= SortedFeatures(features)[0].importance
  {
    SortedHeadIsLargest(features, Importance);
  }

  datatype BadgeVariant = Danger | Warning | Info | Success | Secondary

  /** getBiasBadgeVariant. Its `default` branch returns 'secondary', which no
      value of the four-level type reaches. */
  function BadgeVariantOf(level: PotentialBias): (v: BadgeVariant)
    ensures v != Secondary
    ensures v == Danger <==> level == High
    ensures v == Warning <==> level == Medium
    ensures v == Info <==> level == Low
    ensures v == Success <==> level == NoBias
  {
    match level
    case High => Danger
    case Medium => Warning
    case Low => Info
    case NoBias => Success
  }

  datatype BarColour = Red | Amber | Teal | Green

  /** The bar's class: `high` red, `medium` amber, `low` teal, anything else green. */
  function BarColourOf(level: PotentialBias): (c: BarColour)
    ensures c == Green <==> level == NoBias
  {
    if level.High? then Red
    else if level.Medium? then Amber
    else if level.Low? then Teal
    else Green
  }

  /** Badge and bar tell the same story, and the legend's "High risk" red,
      "Medium risk" amber and "Low risk" teal are the badge's danger,
      warning and info. */
  lemma BadgeAndBarAgree(level: PotentialBias)
    ensures BarColourOf(level) == Red <==> BadgeVariantOf(level) == Danger
    ensures BarColourOf(level) == Amber <==> BadgeVariantOf(level) == Warning
    ensures BarColourOf(level) == Teal <==> BadgeVariantOf(level) == Info
    ensures BarColourOf(level) == Green <==> BadgeVariantOf(level) == Success
  {
  }

  /** Distinct bias levels are never drawn alike. */
  lemma ColoursDistinguishLevels(a: PotentialBias, b: PotentialBias)
    requires a != b
    ensures BarColourOf(a) != BarColourOf(b)
    ensures BadgeVariantOf(a) != BadgeVariantOf(b)
  {
  }

  /** `feature.importance * 100`, the bar width in percent. */
  function BarWidth(f: FeatureImportance): (w: real)
    ensures 0.0 <= f.importance <= 1.0 ==> 0.0 <= w <= 100.0
    ensures w / 100.0 == f.importance
  {
    f.importance * 100.0
  }

  /** `(feature.importance * 100).toFixed(0)`, the printed percentage: the
      magnitude rounded to the nearest integer, halves away from zero. */
  function PercentLabel(f: FeatureImportance): (n: int)
    ensures BarWidth(f) - 0.5 <= n as real <= BarWidth(f) + 0.5
    ensures BarWidth(f) >= 0.0 ==> n >= 0 && BarWidth(f) - 0.5 < n as real
  {
    var w := BarWidth(f);
    if w >= 0.0 then RoundHalfUp(w) else -RoundHalfUp(-w)
  }

  /** The printed percentages agree with the bars: within [0, 100] for an
      importance within [0, 1], and never increasing down the sorted chart
      for non-negative importances. */
  lemma LabelsFollowBars(features: seq<FeatureImportance>)
    requires forall i :: 0 <= i < |features| ==> 0.0 <= features[i].importance
    ensures var r := SortedFeatures(features);
      && (forall k :: 0 <= k < |r| && r[k].importance <= 1.0 ==> 0 <= PercentLabel(r[k]) <= 100)
      && (forall j, k :: 0 <= j < k < |r| ==> PercentLabel(r[k]) <= PercentLabel(r[j]))
  {
    var r := SortedFeatures(features);
    forall k | 0 <= k < |r|
      ensures 0.0 <= r[k].importance
    {
      assert r[k] in multiset(features);
    }
    forall k | 0 <= k < |r| && r[k].importance <= 1.0
      ensures 0 <= PercentLabel(r[k]) <= 100
    {
      RoundHalfUpMonotone(BarWidth(r[k]), 100.0);
    }
    forall j, k | 0 <= j < k < |r|
      ensures PercentLabel(r[k]) <= PercentLabel(r[j])
    {
      RoundHalfUpMonotone(BarWidth(r[k]), BarWidth(r[j]));
    }
  }

  /** Down the sorted chart the bars never grow. */
  lemma WidthsNonIncreasing(features: seq<FeatureImportance>)
    ensures var r := SortedFeatures(features);
      forall j, k :: 0 <= j < k < |r| ==> BarWidth(r[k]) <= BarWidth(r[j])
  {
  }
}
