/**
 * The mitigation simulation table (src/components/mitigation/SimulationResults.tsx):
 * each result row names its strategy by a first-match lookup, shows the
 * relative reduction in disparity and colours the performance impact in
 * three tiers; an empty result list shows a placeholder instead.
 */
module SimulationResults {
  import opened Types
  import opened Numeric

  /** The index `strategies.find(s => s.id === strategyId)` stops at: the
      first strategy carrying the id, or None when no strategy carries it. */
  function FirstMatch(strategies: seq<MitigationStrategy>, strategyId: string): (k: Option<nat>)
    ensures k.Some? ==> k.value < |strategies| && strategies[k.value].id == strategyId
    ensures k.Some? ==> forall j :: 0 <= j < k.value ==> strategies[j].id != strategyId
    ensures k.None? <==> forall j :: 0 <= j < |strategies| ==> strategies[j].id != strategyId
  {
    if strategies == [] then None
    else if strategies[0].id == strategyId then Some(0)
    else
      var rest := FirstMatch(strategies[1..], strategyId);
      if rest.Some? then
        assert strategies[1..][rest.value] == strategies[rest.value + 1];
        Some(rest.value + 1)
      else None
  }

  /** getStrategyName: the name of the first strategy whose id matches, and
      'Unknown Strategy' when none does. */
  function StrategyName(strategies: seq<MitigationStrategy>, strategyId: string): (name: string)
    ensures (forall j :: 0 <= j < |strategies| ==> strategies[j].id != strategyId) ==> name == "Unknown Strategy"
    ensures forall i :: 0 <= i < |strategies| && strategies[i].id == strategyId
                        && (forall j :: 0 <= j < i ==> strategies[j].id != strategyId)
                     ==> name == strategies[i].name
  {
    var k := FirstMatch(strategies, strategyId);
    if k.Some? then strategies[k.value].name else "Unknown Strategy"
  }

  /** With distinct ids every strategy is found under its own id. */
  lemma NameOfOwnId(strategies: seq<MitigationStrategy>, i: nat)
    requires i < |strategies|
    requires forall j, k :: 0 <= j < k < |strategies| ==> strategies[j].id != strategies[k].id
    ensures StrategyName(strategies, strategies[i].id) == strategies[i].name
  {
  }

  /** getDisparityReduction before formatting: `(original - mitigated) /
      original * 100`, with the infinities and NaN of a zero original. */
  function DisparityReduction(original: real, mitigated: real): (r: Num)
    ensures original != 0.0 ==> r == Fin((original - mitigated) / original * 100.0)
    ensures original != 0.0 && mitigated == original ==> r == Fin(0.0)
    ensures original > 0.0 && mitigated < original ==> r.Fin? && r.v > 0.0
    ensures original > 0.0 && mitigated > original ==> r.Fin? && r.v < 0.0
    ensures original > 0.0 && 0.0 <= mitigated <= original ==> r.Fin? && 0.0 <= r.v <= 100.0
    ensures original == 0.0 ==> (r.NaN? <==> mitigated == 0.0)
  {
    ScaleNum(Div(original - mitigated, original), 100.0)
  }

  /** The cell prints `-` before the reduction, so a mitigated disparity
      above the original (a negative reduction) is printed with two minus
      signs; a mitigated disparity of 0 is shown as a full 100 % reduction. */
  lemma ReductionEdges(original: real, mitigated: real)
    requires original > 0.0
    ensures mitigated == 0.0 ==> DisparityReduction(original, mitigated) == Fin(100.0)
    ensures mitigated > original ==> DisparityReduction(original, mitigated).v < 0.0
  {
  }

  /** A smaller mitigated disparity always means a larger reduction. */
  lemma ReductionAntitone(original: real, m1: real, m2: real)
    requires original > 0.0 && m1 <= m2
    ensures DisparityReduction(original, m2).v <= DisparityReduction(original, m1).v
  {
    assert (original - m2) / original <= (original - m1) / original;
  }

  datatype ImpactColour = Green | Amber | Red

  /** The performance-impact class: positive green, above -0.03 amber, red otherwise. */
  function ImpactColourOf(impact: real): (c: ImpactColour)
    ensures c == Green <==> impact > 0.0
    ensures c == Amber <==> -0.03 < impact <= 0.0
    ensures c == Red <==> impact <= -0.03
  {
    if impact > 0.0 then Green else if impact > -0.03 then Amber else Red
  }

  /** `result.performanceImpact > 0 ? '+' : ''`. */
  function ImpactPrefix(impact: real): (p: string)
    ensures p == "+" <==> impact > 0.0
    ensures p != "+" ==> p == ""
  {
    if impact > 0.0 then "+" else ""
  }

  /** The `+` sign and the green colour go together. */
  lemma PlusExactlyWhenGreen(impact: real)
    ensures ImpactPrefix(impact) == "+" <==> ImpactColourOf(impact) == Green
  {
  }

  /** Orders the impact colours from worst to best. */
  function Rank(c: ImpactColour): nat
  {
    match c
    case Red => 0
    case Amber => 1
    case Green => 2
  }

  /** A larger impact never gets a worse colour. */
  lemma ImpactColourMonotone(a: real, b: real)
    requires a <= b
    ensures Rank(ImpactColourOf(a)) <= Rank(ImpactColourOf(b))
  {
  }

  /** One table row as rendered, before number formatting. */
  datatype ResultRow = ResultRow(name: string, originalDisparity: real, mitigatedDisparity: real,
                                 reduction: Num, impactColour: ImpactColour, impactPrefix: string,
                                 impactPercent: real)

  datatype View = Placeholder | Table(rows: seq<ResultRow>)

  function RowOf(strategies: seq<MitigationStrategy>, r: SimulationResult): (row: ResultRow)
    ensures row.originalDisparity == r.originalDisparity && row.mitigatedDisparity == r.mitigatedDisparity
    ensures row.impactPrefix == "+" <==> r.performanceImpact > 0.0
    ensures row.impactColour == Green <==> r.performanceImpact > 0.0
    ensures r.originalDisparity != 0.0 && r.mitigatedDisparity == 0.0 ==> row.reduction == Fin(100.0)
  {
    assert r.originalDisparity != 0.0 ==> r.originalDisparity / r.originalDisparity == 1.0;
    ResultRow(StrategyName(strategies, r.strategyId), r.originalDisparity, r.mitigatedDisparity,
              DisparityReduction(r.originalDisparity, r.mitigatedDisparity),
              ImpactColourOf(r.performanceImpact), ImpactPrefix(r.performanceImpact),
              r.performanceImpact * 100.0)
  }

  /** `results.length > 0 ? <table> : <placeholder>`: an empty list shows the
      placeholder; otherwise the table has one row per result, in order. */
  function Render(results: seq<SimulationResult>, strategies: seq<MitigationStrategy>): (v: View)
    ensures v.Placeholder? <==> results == []
    ensures v.Table? ==> |v.rows| == |results|
    ensures v.Table? ==> forall i :: 0 <= i < |results| ==>
      v.rows[i].originalDisparity == results[i].originalDisparity
      && v.rows[i].mitigatedDisparity == results[i].mitigatedDisparity
      && (v.rows[i].impactPrefix == "+" <==> results[i].performanceImpact > 0.0)
      && (v.rows[i].impactColour == Green <==> results[i].performanceImpact > 0.0)
  {
    if |results| > 0 then Table(seq(|results|, i requires 0 <= i < |results| => RowOf(strategies, results[i])))
    else Placeholder
  }
}
