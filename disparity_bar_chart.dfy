/**
 * The approval-rate disparity chart (src/components/dashboard/DisparityBarChart.tsx):
 * the categories of one protected attribute sorted by approval rate, each bar
 * scaled against the largest rate, the first bar blue ("Highest rate"), the
 * last red ("Lowest rate"), the others teal, and the total of the category
 * counts in the header.
 */
module DisparityBarChart {
  import opened Types
  import opened Numeric
  import opened Text
  import opened Sorting

  function Rate(c: CategoryStat): real
  {
    c.approvalRate
  }

  /** `[...data.categories].sort((a, b) => b.approvalRate - a.approvalRate)`:
      a copy of the categories, highest approval rate first. */
  function SortedCategories(d: DisparityMetric): (r: seq<CategoryStat>)
    ensures SortedDesc(r, Rate)
    ensures multiset(r) == multiset(d.categories)
    ensures |r| == |d.categories|
  {
    SortDesc(d.categories, Rate)
  }

  /** `data.categories.map(c => c.approvalRate)`. */
  function Rates(cats: seq<CategoryStat>): (rs: seq<real>)
    ensures |rs| == |cats|
    ensures forall i :: 0 <= i < |cats| ==> rs[i] == cats[i].approvalRate
  {
    seq(|cats|, i requires 0 <= i < |cats| => cats[i].approvalRate)
  }

  /** `Math.max(...data.categories.map(c => c.approvalRate))`; None stands for
      the -Infinity of an empty category list. */
  function MaxApprovalRate(d: DisparityMetric): (m: Option<real>)
    ensures m.None? <==> d.categories == []
    ensures m.Some? ==> forall i :: 0 <= i < |d.categories| ==> d.categories[i].approvalRate <= m.value
    ensures m.Some? ==> exists i :: 0 <= i < |d.categories| && d.categories[i].approvalRate == m.value
  {
    var rs := Rates(d.categories);
    var m := Max(rs);
    if m.Some? then
      var i :| 0 <= i < |rs| && rs[i] == m.value;
      m
    else m
  }

  /** The scale of the chart is the rate of its first (blue) bar. */
  lemma MaxIsFirstBar(d: DisparityMetric)
    requires d.categories != []
    ensures MaxApprovalRate(d) == Some(SortedCategories(d)[0].approvalRate)
  {
    var r := SortedCategories(d);
    SortedHeadIsLargest(d.categories, Rate);
    assert r[0] in multiset(d.categories);
    var j :| 0 <= j < |d.categories| && d.categories[j] == r[0];
    var m := MaxApprovalRate(d);
    assert m.value >= d.categories[j].approvalRate;
    var i :| 0 <= i < |d.categories| && d.categories[i].approvalRate == m.value;
    assert Rate(d.categories[i]) <= Rate(r[0]);
  }

  datatype BarColour = Blue | Red | Teal

  /** `index === 0 ? 'bg-blue-600' : index === sortedCategories.length - 1 ?
      'bg-red-500' : 'bg-teal-500'`. */
  function BarColourAt(index: nat, n: nat): (c: BarColour)
    requires index < n
    ensures c == Blue <==> index == 0
    ensures c == Red <==> 0 < index == n - 1
    ensures c == Teal <==> 0 < index < n - 1
  {
    if index == 0 then Blue else if index == n - 1 then Red else Teal
  }

  /** The legend holds: the blue bar shows a highest rate and a red bar a
      lowest one; there is exactly one blue bar, and a red one exactly when
      there are at least two categories. */
  lemma LegendHolds(d: DisparityMetric)
    requires d.categories != []
    ensures var r := SortedCategories(d);
      && (forall k :: 0 <= k < |r| && BarColourAt(k, |r|) == Blue ==>
            forall i :: 0 <= i < |d.categories| ==> d.categories[i].approvalRate <= r[k].approvalRate)
      && (forall k :: 0 <= k < |r| && BarColourAt(k, |r|) == Red ==>
            forall i :: 0 <= i < |d.categories| ==> r[k].approvalRate <= d.categories[i].approvalRate)
      && (forall k :: 0 <= k < |r| && BarColourAt(k, |r|) == Blue ==> k == 0)
      && (|r| >= 2 <==> exists k :: 0 <= k < |r| && BarColourAt(k, |r|) == Red)
  {
    var r := SortedCategories(d);
    SortedHeadIsLargest(d.categories, Rate);
    SortedLastIsSmallest(d.categories, Rate);
    if |r| >= 2 {
      assert BarColourAt(|r| - 1, |r|) == Red;
    }
  }

  /** `(category.approvalRate / maxApprovalRate) * 100`, as written: with a
      zero maximum the quotient is infinite, or NaN for a zero rate. */
  function BarWidth(rate: real, maxRate: real): (w: Num)
    ensures maxRate != 0.0 ==> w == Fin(rate / maxRate * 100.0)
    ensures maxRate == 0.0 ==> !w.Fin?
  {
    ScaleNum(Div(rate, maxRate), 100.0)
  }

  /** When every category's approval rate is 0, the maximum is 0 and every
      bar's width is NaN: the CSS width "NaN%" is dropped and the bar takes
      the whole track, drawing a 0 % rate as a full bar. */
  lemma AllZeroRatesGiveNaN()
    ensures var d := DisparityMetric(Gender, 0.0, [CategoryStat("male", 0.0, 10), CategoryStat("female", 0.0, 12)]);
      && MaxApprovalRate(d) == Some(0.0)
      && BarWidth(SortedCategories(d)[0].approvalRate, MaxApprovalRate(d).value).NaN?
  {
    var d := DisparityMetric(Gender, 0.0, [CategoryStat("male", 0.0, 10), CategoryStat("female", 0.0, 12)]);
    var r := SortedCategories(d);
    assert r[0] in multiset(d.categories);
    assert r[0].approvalRate == 0.0;
  }

  /** The width the chart evidently intends: the rate scaled against the
      maximum, and an empty bar when the maximum is 0. */
  function ShownWidth(rate: real, maxRate: real): (w: real)
    requires 0.0 <= rate <= maxRate
    ensures 0.0 <= w <= 100.0
    ensures maxRate > 0.0 ==> w == rate / maxRate * 100.0
    ensures rate == maxRate && maxRate > 0.0 ==> w == 100.0
  {
    if maxRate == 0.0 then 0.0
    else
      assert rate / maxRate * maxRate == rate;
      assert rate / maxRate <= 1.0;
      assert maxRate / maxRate == 1.0;
      rate / maxRate * 100.0
  }

  /** For non-negative rates every bar fits its track, the first bar fills
      it whenever its rate is positive, and a higher rate never draws a
      shorter bar. */
  lemma WidthsWithinTrack(d: DisparityMetric)
    requires d.categories != []
    requires forall i :: 0 <= i < |d.categories| ==> 0.0 <= d.categories[i].approvalRate
    ensures var r := SortedCategories(d);
      var m := MaxApprovalRate(d).value;
      && (forall k :: 0 <= k < |r| ==> 0.0 <= r[k].approvalRate <= m)
      && (m > 0.0 ==> ShownWidth(r[0].approvalRate, m) == 100.0)
      && (forall j, k :: 0 <= j < k < |r| ==> ShownWidth(r[k].approvalRate, m) <= ShownWidth(r[j].approvalRate, m))
  {
    var r := SortedCategories(d);
    MaxIsFirstBar(d);
    var m := MaxApprovalRate(d).value;
    forall k | 0 <= k < |r|
      ensures 0.0 <= r[k].approvalRate <= m
    {
      assert r[k] in multiset(d.categories);
    }
    forall j, k | 0 <= j < k < |r|
      ensures ShownWidth(r[k].approvalRate, m) <= ShownWidth(r[j].approvalRate, m)
    {
      ShownWidthMonotone(r[k].approvalRate, r[j].approvalRate, m);
    }
  }

  lemma ShownWidthMonotone(a: real, b: real, m: real)
    requires 0.0 <= a <= b <= m
    ensures ShownWidth(a, m) <= ShownWidth(b, m)
  {
    if m > 0.0 {
      assert a / m <= b / m;
    }
  }

  /** `data.categories.reduce((sum, cat) => sum + cat.count, 0)`; integer
      addition is exact, so the fold order does not matter. */
  function TotalApplicants(cats: seq<CategoryStat>): (t: int)
    ensures (forall i :: 0 <= i < |cats| ==> cats[i].count >= 0) ==>
      t >= 0 && forall i :: 0 <= i < |cats| ==> cats[i].count <= t
  {
    if cats == [] then 0 else cats[0].count + TotalApplicants(cats[1..])
  }

  lemma {:induction false} TotalOfInsert(x: CategoryStat, xs: seq<CategoryStat>)
    requires SortedDesc(xs, Rate)
    ensures TotalApplicants(Insert(x, xs, Rate)) == x.count + TotalApplicants(xs)
  {
    if xs != [] && Rate(x) < Rate(xs[0]) {
      TotalOfInsert(x, xs[1..]);
      var r := Insert(x, xs, Rate);
      assert r[1..] == Insert(x, xs[1..], Rate);
    }
  }

  /** The header total is also the sum of the counts the bars show: sorting
      loses and duplicates no category. */
  lemma {:induction false} TotalUnchangedBySorting(cats: seq<CategoryStat>)
    ensures TotalApplicants(SortDesc(cats, Rate)) == TotalApplicants(cats)
  {
    if cats != [] {
      TotalUnchangedBySorting(cats[1..]);
      TotalOfInsert(cats[0], SortDesc(cats[1..], Rate));
    }
  }
}
