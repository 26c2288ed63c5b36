/**
 * The bias-metrics overview (src/components/dashboard/MetricsOverview.tsx):
 * each metric is judged against its threshold and 80 % of it, coloured and
 * drawn as a progress bar, and the metrics are tallied as fair or concerning.
 */
module MetricsOverview {
  import opened Types
  import opened Numeric
  import ProgressBar

  datatype Status = Success | Warning | Danger

  /** getMetricStatus: at or above the threshold is success, at or above
      0.8·threshold is warning, anything lower is danger. */
  function MetricStatus(m: BiasMetric): (s: Status)
    ensures s == Success <==> m.value >= m.threshold
    ensures s == Warning <==> m.threshold * 0.8 <= m.value < m.threshold
    ensures s == Danger <==> m.value < m.threshold && m.value < m.threshold * 0.8
  {
    if m.value >= m.threshold then Success
    else if m.value >= m.threshold * 0.8 then Warning
    else Danger
  }

  /** For the usual non-negative threshold the warning band is
      [0.8·threshold, threshold) and danger is exactly below 0.8·threshold. */
  lemma StatusBands(m: BiasMetric)
    requires m.threshold >= 0.0
    ensures MetricStatus(m) == Danger <==> m.value < m.threshold * 0.8
    ensures m.threshold * 0.8 <= m.threshold
  {
  }

  /** Orders the statuses from worst to best. */
  function Rank(s: Status): nat
  {
    match s
    case Danger => 0
    case Warning => 1
    case Success => 2
  }

  /** Raising a metric's value, threshold fixed, never makes its status worse.
      With a negative threshold the warning band is empty, so this holds for
      every threshold. */
  lemma StatusMonotone(m: BiasMetric, value: real)
    requires m.value <= value
    ensures Rank(MetricStatus(m)) <= Rank(MetricStatus(m.(value := value)))
  {
  }

  /** The colour of the printed value. */
  function TextClass(s: Status): (c: string)
    ensures c == "text-green-600" <==> s == Success
    ensures c == "text-amber-600" <==> s == Warning
    ensures c == "text-red-600" <==> s == Danger
  {
    match s
    case Success => "text-green-600"
    case Warning => "text-amber-600"
    case Danger => "text-red-600"
  }

  /** The progress-bar variant the status is passed as. */
  function BarVariant(s: Status): (v: ProgressBar.Variant)
    ensures v == ProgressBar.Success <==> s == Success
    ensures v == ProgressBar.Warning <==> s == Warning
    ensures v == ProgressBar.Danger <==> s == Danger
  {
    match s
    case Success => ProgressBar.Success
    case Warning => ProgressBar.Warning
    case Danger => ProgressBar.Danger
  }

  /** The printed value and the bar carry the same judgement: both colours
      are green exactly on success, amber exactly on warning. */
  lemma ColoursAgree(m: BiasMetric)
    ensures TextClass(MetricStatus(m)) == "text-green-600"
         <==> ProgressBar.VariantClass(Some(BarVariant(MetricStatus(m)))) == "bg-green-600"
    ensures TextClass(MetricStatus(m)) == "text-amber-600"
         <==> ProgressBar.VariantClass(Some(BarVariant(MetricStatus(m)))) == "bg-amber-500"
    ensures TextClass(MetricStatus(m)) == "text-green-600" <==> m.value >= m.threshold
  {
  }

  /** `<ProgressBar value={metric.value * 100} />` with the default max of
      100: the bar is the metric's value as a percentage, clamped to [0, 100]. */
  lemma MetricBarWidth(m: BiasMetric)
    ensures var p := ProgressBar.Percentage(m.value * 100.0, ProgressBar.MaxOrDefault(None));
      p.Fin? && 0.0 <= p.v <= 100.0
      && (0.0 <= m.value <= 1.0 ==> p.v == m.value * 100.0)
  {
  }

  /** `metrics.filter(m => m.value >= m.threshold).length`. */
  function FairCount(metrics: seq<BiasMetric>): (n: nat)
    ensures n <= |metrics|
  {
    if metrics == [] then 0
    else FairCount(metrics[..|metrics| - 1]) + (if metrics[|metrics| - 1].value >= metrics[|metrics| - 1].threshold then 1 else 0)
  }

  /** `metrics.filter(m => m.value < m.threshold).length`. */
  function ConcerningCount(metrics: seq<BiasMetric>): (n: nat)
    ensures n <= |metrics|
  {
    if metrics == [] then 0
    else ConcerningCount(metrics[..|metrics| - 1]) + (if metrics[|metrics| - 1].value < metrics[|metrics| - 1].threshold then 1 else 0)
  }

  /** The number of metrics with status `s`. */
  function StatusCount(metrics: seq<BiasMetric>, s: Status): (n: nat)
    ensures n <= |metrics|
  {
    if metrics == [] then 0
    else StatusCount(metrics[..|metrics| - 1], s) + (if MetricStatus(metrics[|metrics| - 1]) == s then 1 else 0)
  }

  /** Every metric is either fair or concerning, never both. */
  lemma {:induction false} FairPlusConcerning(metrics: seq<BiasMetric>)
    ensures FairCount(metrics) + ConcerningCount(metrics) == |metrics|
  {
    if metrics != [] {
      FairPlusConcerning(metrics[..|metrics| - 1]);
    }
  }

  /** The fair metrics are the successes, and the concerning ones are the
      warnings and the dangers: the tallies agree with the coloured statuses. */
  lemma {:induction false} TalliesMatchStatuses(metrics: seq<BiasMetric>)
    ensures FairCount(metrics) == StatusCount(metrics, Success)
    ensures ConcerningCount(metrics) == StatusCount(metrics, Warning) + StatusCount(metrics, Danger)
  {
    if metrics != [] {
      TalliesMatchStatuses(metrics[..|metrics| - 1]);
    }
  }
}
