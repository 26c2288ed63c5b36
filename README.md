# Loan-approval bias dashboard: a Dafny model of its computing core

The dashboard loads loan applicants from a CSV file, or generates mock ones,
and shows how approval rates differ between groups of a protected attribute
(gender, race, age). Almost all of it is React markup. This project models the
deterministic rules buried in the views and data modules, and proves what they
promise:

- **The distribution chart's group-and-count table.** It is built in place by
  a loop (`DataDistribution.CountByCategory`). The model proves one bucket per
  category with exact counts, rates in [0, 1], and conservation of records and
  approvals.
- **The metric status classifier.** It sorts a metric into success, warning or
  danger, and drives the fair/concerning tallies.
- **The CSV row mapping and the stepwise risk score.** This covers the
  `LOAN-nnnnn` ids, field defaults, lower-casing and the approval token rule.
- **The mock applicant generator.** It is a counted loop whose random draws
  are parameters. The model proves the field ranges, the id sequence and the
  biased approval rule.
- **The presentation helpers.** These are:
  - sorted copies, maxima and sums;
  - first-match lookup;
  - colour tiers;
  - width clamps;
  - percent changes, including how they print;
  - the sensitivity formula and its rating;
  - the dashboard summary;
  - the progress bar.

All quantities are exact `real`s. A JavaScript number is modelled where it
matters, as `Numeric.Num`, which has finite values, the two infinities and NaN.
Division by zero in the views therefore shows up in the contracts rather than
being ruled out.

Module layout: `types.dfy` holds the records of `src/types/index.ts`. The
shared helpers are `numeric.dfy`, `text.dfy` and `sorting.dfy`. Each of the
other files models one source file.

Behaviour of the code worth knowing:

- The `approved` token match is case-sensitive (`LoanData.ApprovedTokenIsCaseSensitive`).
- A row without a gender or race empties the whole load: the exception it
  raises is caught by the loader, which then returns no records
  (`LoanData.OneBadRowEmptiesLoad`).
- The credit-score term of the risk score is `credit / 850 * 30`.
- Groups are keyed by the exact attribute value.
- The disparity shown by the charts is read from the data they are given; no
  view computes it.
- The risk scores of the mock applicants are not clamped: they run from 3 to
  146, so the dashboard's average risk score can exceed 100
  (`DashboardSection.MockAverageCanExceed100`).
- Zero divisions produce infinities and NaN.

## Model

| member | source | states |
|---|---|---|
| Types.ApprovedCount | src/components/detection/DataDistributionChart.tsx:40 | the approved records number at most the records |
| Numeric.Clamp | src/data/loanData.ts:56 | `Math.min(hi, Math.max(lo, x))` lies in [lo, hi], is x inside it, lo below and hi above |
| Numeric.ClampMonotone | src/data/loanData.ts:56 | clamping preserves order |
| Numeric.RoundHalfUp | src/data/mockData.ts:64 | `Math.round` gives the integer within half of x, halves rounded up |
| Numeric.Max | src/components/dashboard/DisparityBarChart.tsx:16 | `Math.max(...xs)` is None (-Infinity) exactly for an empty list, else an element at least every element |
| Numeric.Min | src/sections/ModelComparison.tsx:41 | `Math.min(...xs)` is None (+Infinity) exactly for an empty list, else an element at most every element |
| Numeric.MaxAtLeastMin | src/sections/ModelComparison.tsx:39-41 | on a non-empty list the minimum is at most the maximum |
| Numeric.SumOfBounds | src/sections/Dashboard.tsx:14-15 | a sum of n terms within [lo, hi] lies within [n·lo, n·hi] |
| Numeric.SumOf | src/sections/Dashboard.tsx:14-15 | the fold starts at 0: the sum of no terms is 0 |
| Numeric.MeanBounds | src/sections/Dashboard.tsx:14-15 | a sum within [n·lo, n·hi] divided by n lies within [lo, hi] |
| Numeric.Div | src/components/ui/ProgressBar.tsx:22 | JavaScript division: the exact quotient for a non-zero divisor, a signed infinity for x / 0, NaN exactly for 0 / 0 |
| Numeric.AddNum | src/data/loanData.ts:53 | addition: finite sums are exact, NaN absorbs, a finite value plus an infinity is that infinity |
| Numeric.ScaleNum | src/components/ui/ProgressBar.tsx:22 | multiplying by a positive constant scales finite values and keeps infinities and NaN |
| Numeric.ClampNum | src/components/ui/ProgressBar.tsx:22 | `Math.min/Math.max` clamping: NaN passes through, infinities are pinned to the bounds, finite values are clamped |
| Numeric.RoundHalfUpMonotone | src/components/dashboard/FeatureImportanceChart.tsx:39 | rounding preserves order |
| Sorting.Insert | src/components/dashboard/DisparityBarChart.tsx:13 | inserting into a descending list keeps it descending and adds exactly the element |
| Sorting.SortDesc | src/components/dashboard/DisparityBarChart.tsx:13 | the sorted copy is in non-increasing key order and a permutation of the input |
| Sorting.SortedHeadIsLargest | src/components/dashboard/DisparityBarChart.tsx:13 | the head of the sorted copy has the largest key of the input |
| Sorting.SortedLastIsSmallest | src/components/dashboard/DisparityBarChart.tsx:13 | the last element of the sorted copy has the smallest key of the input |
| Text.Digits | src/data/loanData.ts:19 | `n.toString()` is a non-empty digit string |
| Text.DecimalValueOfDigits | src/data/loanData.ts:19 | reading the printed digits back gives n |
| Text.IntToStringInjective | src/components/detection/DataDistributionChart.tsx:16 | distinct integers print as distinct object keys |
| Text.PadStart | src/data/loanData.ts:19 | `padStart(width, fill)` is as long as the larger of the width and the length of s, ends in s and is filled before it |
| Text.LoanIdRoundTrip | src/data/loanData.ts:19 | the index can be read back from `LOAN-` plus its zero-padded digits |
| Text.LoanId | src/data/loanData.ts:19 | every id starts with `LOAN-`, has at least ten characters and ends in digits only |
| Text.LoanIdInjective | src/data/loanData.ts:19 | distinct indexes give distinct ids |
| Text.LoanIdLength | src/data/loanData.ts:19 | below 100000 every id is exactly 10 characters, ending in five digits |
| Text.ToLower | src/data/loanData.ts:21-22 | `toLowerCase` keeps the length, leaves no upper-case letter and changes only upper-case letters |
| Text.LowerIsFixed | src/data/loanData.ts:21-22 | a string without upper-case letters is its own lower case |
| Text.ToLowerIdempotent | src/data/loanData.ts:21-22 | lower-casing twice is lower-casing once |
| Text.Capitalize | src/components/dashboard/DisparityBarChart.tsx:19-21 | `getAttributeName`, `charAt(0).toUpperCase() + slice(1)`: keeps the length and the tail, upper-cases the first character; a lower-case initial changes the string, any other leaves it unchanged |
| Text.CapitalizeThenLower | src/components/dashboard/DisparityBarChart.tsx:20 | capitalising is undone by lower-casing |
| ProgressBar.Percentage | src/components/ui/ProgressBar.tsx:22 | the percentage is NaN exactly for 0 / 0, otherwise lies in [0, 100]; it is value/max·100 when 0 ≤ value ≤ max, 0 below, 100 above |
| ProgressBar.PercentageMonotone | src/components/ui/ProgressBar.tsx:22 | against a positive max a larger value never gives a shorter bar |
| ProgressBar.VariantClass | src/components/ui/ProgressBar.tsx:24-39 | blue exactly for the default and `primary` variants |
| ProgressBar.VariantClassInjective | src/components/ui/ProgressBar.tsx:24-39 | each variant has its own colour class |
| ProgressBar.SizeClass | src/components/ui/ProgressBar.tsx:41-52 | `h-2` exactly for the default and `md` sizes |
| ProgressBar.SizeClassInjective | src/components/ui/ProgressBar.tsx:41-52 | each size has its own height class |
| MetricsOverview.MetricStatus | src/components/dashboard/MetricsOverview.tsx:14-22 | success iff value ≥ threshold; warning iff 0.8·threshold ≤ value < threshold; danger otherwise |
| MetricsOverview.StatusBands | src/components/dashboard/MetricsOverview.tsx:17-20 | for a non-negative threshold, danger iff value < 0.8·threshold |
| MetricsOverview.StatusMonotone | src/components/dashboard/MetricsOverview.tsx:14-22 | raising the value never worsens the status |
| MetricsOverview.ColoursAgree | src/components/dashboard/MetricsOverview.tsx:39-52 | the value's text colour and the progress bar's colour agree, green exactly when value ≥ threshold |
| MetricsOverview.TextClass | src/components/dashboard/MetricsOverview.tsx:39-42 | green text exactly on success, amber exactly on warning, red exactly on danger |
| MetricsOverview.BarVariant | src/components/dashboard/MetricsOverview.tsx:50-52 | the bar gets the variant named like the status, and only that status gets it |
| MetricsOverview.MetricBarWidth | src/components/dashboard/MetricsOverview.tsx:50-51 | the bar is the value in percent, clamped to [0, 100] |
| MetricsOverview.FairCount | src/components/dashboard/MetricsOverview.tsx:64 | the fair count is at most the number of metrics |
| MetricsOverview.ConcerningCount | src/components/dashboard/MetricsOverview.tsx:70 | the concerning count is at most the number of metrics |
| MetricsOverview.StatusCount | src/components/dashboard/MetricsOverview.tsx:14-22 | the count of one status is at most the number of metrics |
| MetricsOverview.FairPlusConcerning | src/components/dashboard/MetricsOverview.tsx:64-70 | fair plus concerning is the number of metrics |
| MetricsOverview.TalliesMatchStatuses | src/components/dashboard/MetricsOverview.tsx:64-70 | the fair metrics are the successes; the concerning ones are the warnings and dangers |
| LoanData.OrDefault | src/data/loanData.ts:25-27 | a cell with a default is the cell when truthy, else the fallback |
| LoanData.ApprovedTokenIsCaseSensitive | src/data/loanData.ts:28 | "true", "1" and "yes" approve; "TRUE", "Yes", "True", "" and a missing cell do not |
| LoanData.ApprovedToken | src/data/loanData.ts:28 | an approving cell is a non-empty token with no upper-case letter |
| LoanData.RiskScoreOf | src/data/loanData.ts:39-56 | the risk score is NaN exactly when loan amount and income are both 0, otherwise finite and within [0, 100] |
| LoanData.CalculateRiskScore | src/data/loanData.ts:39-56 | the stepwise adjustment of `let score = 50` ends at the closed-form score |
| LoanData.CreditTerm | src/data/loanData.ts:44-46 | 0 for a missing or empty cell; within [0, 30] for a credit score in [0, 850] |
| LoanData.DebtTerm | src/data/loanData.ts:48-50 | 0 for a missing or empty cell; within [0, 20] for a ratio in [0, 1] |
| LoanData.LoanTerm | src/data/loanData.ts:52-54 | finite and non-negative for a positive income and non-negative loan; NaN exactly for 0/0 |
| LoanData.NeutralScore | src/data/loanData.ts:41-56 | with no adjustment applying the score is exactly 50 |
| LoanData.CreditScoreLowers | src/data/loanData.ts:44-46 | a non-negative credit score never raises the score |
| LoanData.DebtRaises | src/data/loanData.ts:48-50 | a non-negative debt-to-income ratio never lowers the score |
| LoanData.LoanRatioRaises | src/data/loanData.ts:52-54 | a non-negative loan over a positive income never lowers the score |
| LoanData.MapRow | src/data/loanData.ts:18-30 | a row maps iff it has gender and race; the record has the row's id, lower-cased gender and race, the token approval and a risk score within [0, 100] |
| LoanData.FieldDefaults | src/data/loanData.ts:25-27 | a missing or empty debt-to-income parses "0", a loan term "30"; a present cell is parsed itself |
| LoanData.MapRows | src/data/loanData.ts:18-30 | the mapping succeeds iff every row does, with one record per row in order |
| LoanData.LoadLoanData | src/data/loanData.ts:7-37 | a failed fetch, parse or mapping gives the empty list; a successful mapping gives exactly the mapped records, one per row |
| LoanData.OneBadRowEmptiesLoad | src/data/loanData.ts:33-36 | one row without gender or race empties the whole load |
| LoanData.LoadedRecords | src/data/loanData.ts:18-22 | loaded ids are LOAN-00000, LOAN-00001, … in row order, distinct, 10 characters below 100000; gender and race have no upper case |
| DataDistribution.LabelInjective | src/components/detection/DataDistributionChart.tsx:16 | two records share an object key iff they share the attribute value |
| DataDistribution.CategoryOf | src/components/detection/DataDistributionChart.tsx:16 | a record is grouped by a number exactly for the age attribute, by text otherwise |
| DataDistribution.TallyOf | src/components/detection/DataDistributionChart.tsx:15-25 | a category's reference count has approved ≤ total ≤ number of records |
| DataDistribution.TallyOfAbsent | src/components/detection/DataDistributionChart.tsx:15-25 | an absent category counts zero |
| DataDistribution.TallyOfPresent | src/components/detection/DataDistributionChart.tsx:18-22 | a present category counts at least one record |
| DataDistribution.TallyOfSnoc | src/components/detection/DataDistributionChart.tsx:22-25 | one more record bumps its own category's total, and its approvals when approved, and nothing else |
| DataDistribution.CategoriesOfSnoc | src/components/detection/DataDistributionChart.tsx:18-19 | one more record adds its category to the categories seen |
| DataDistribution.EntryIsTally | src/components/detection/DataDistributionChart.tsx:18-19 | a missing entry stands for a zero count |
| DataDistribution.CountStep | src/components/detection/DataDistributionChart.tsx:15-26 | one iteration of the `forEach` turns the table of a prefix into the table of the prefix plus one record |
| DataDistribution.CountByCategory | src/components/detection/DataDistributionChart.tsx:13-26 | the loop's table has exactly the categories that occur as keys, each holding its exact count |
| DataDistribution.RateOfNonEmptyEntry | src/components/detection/DataDistributionChart.tsx:32 | a non-empty entry's rate is approved/total, within [0, 1] |
| DataDistribution.ToBucket | src/components/detection/DataDistributionChart.tsx:28-33 | the bucket carries the entry's category and counts, and an empty entry gets rate 0 |
| DataDistribution.Distribution | src/components/detection/DataDistributionChart.tsx:28-33 | one bucket per listed key, in order, built from that key's entry |
| DataDistribution.OneBucketPerCategory | src/components/detection/DataDistributionChart.tsx:15-33 | the buckets stand for exactly the categories that occur, each once |
| DataDistribution.EntriesNonEmpty | src/components/detection/DataDistributionChart.tsx:18-22 | every entry counts at least one record and no more approvals than records |
| DataDistribution.BucketCountsExact | src/components/detection/DataDistributionChart.tsx:22-25 | each bucket holds its category's exact count, total ≥ 1 and approved ≤ total |
| DataDistribution.BucketRatesExact | src/components/detection/DataDistributionChart.tsx:32 | every bucket's rate is its approved fraction within [0, 1]; the zero guard never fires |
| DataDistribution.TallySumAppend | src/components/detection/DataDistributionChart.tsx:22-25 | a new record adds to a sum over distinct categories exactly once if its category is listed |
| DataDistribution.TallySumCovers | src/components/detection/DataDistributionChart.tsx:15-25 | summed over distinct categories covering every record, the counts give every record and every approval |
| DataDistribution.BucketSumsAreTallySum | src/components/detection/DataDistributionChart.tsx:28-33 | the bucket sums are the sums of the categories' counts |
| DataDistribution.BucketsConserveRecords | src/components/detection/DataDistributionChart.tsx:15-40 | bucket totals sum to `data.length`, bucket approvals to `overallApproved` |
| DataDistribution.GetDistribution | src/components/detection/DataDistributionChart.tsx:12-34 | one bucket per occurring category, exact counts, total ≥ 1, rates the approved fraction, totals and approvals conserved |
| DataDistribution.Totals | src/components/detection/DataDistributionChart.tsx:37 | the list of bucket totals, one per bucket |
| DataDistribution.MaxTotal | src/components/detection/DataDistributionChart.tsx:37 | None exactly without buckets; otherwise one bucket's total, at least every total |
| DataDistribution.BarsWithinTrack | src/components/detection/DataDistributionChart.tsx:37-82 | with buckets present `maxTotal` ≥ 1 bounds every total; each approved bar ≤ its total bar ≤ 100 % |
| DataDistribution.WidthMonotone | src/components/detection/DataDistributionChart.tsx:76-82 | a smaller count never draws a wider bar, and no bar exceeds 100 % |
| DataDistribution.BarWidth | src/components/detection/DataDistributionChart.tsx:76-82 | a bar is never negative, and the largest group's bar is 100 % |
| DataDistribution.OverallRate | src/components/detection/DataDistributionChart.tsx:40-41 | `overallRate` lies in [0, 1], is 0 for no data and approved/length otherwise |
| DisparityBarChart.SortedCategories | src/components/dashboard/DisparityBarChart.tsx:13 | a permutation of the categories in non-increasing rate; the input is a value and is not reordered |
| DisparityBarChart.Rates | src/components/dashboard/DisparityBarChart.tsx:16 | the rates, one per category in order |
| DisparityBarChart.MaxApprovalRate | src/components/dashboard/DisparityBarChart.tsx:16 | None exactly without categories; otherwise a category's rate, at least every rate |
| DisparityBarChart.MaxIsFirstBar | src/components/dashboard/DisparityBarChart.tsx:13-16 | the maximum is the first sorted category's rate |
| DisparityBarChart.BarColourAt | src/components/dashboard/DisparityBarChart.tsx:60-61 | blue iff index 0, red iff the last of several, teal in between |
| DisparityBarChart.LegendHolds | src/components/dashboard/DisparityBarChart.tsx:60-83 | the blue bar has a highest rate, a red bar a lowest; one blue bar; a red bar iff at least two categories |
| DisparityBarChart.BarWidth | src/components/dashboard/DisparityBarChart.tsx:63 | the width is rate/max·100 for a non-zero max and not finite for a zero max |
| DisparityBarChart.AllZeroRatesGiveNaN | src/components/dashboard/DisparityBarChart.tsx:63 | with all rates 0 the maximum is 0 and the first bar's width is NaN |
| DisparityBarChart.ShownWidth | src/components/dashboard/DisparityBarChart.tsx:63 | the corrected width lies in [0, 100], is rate/max·100 for a positive max and 100 at the max |
| DisparityBarChart.WidthsWithinTrack | src/components/dashboard/DisparityBarChart.tsx:63 | for non-negative rates every rate lies in [0, max], the first bar is full, widths never grow down the chart |
| DisparityBarChart.ShownWidthMonotone | src/components/dashboard/DisparityBarChart.tsx:63 | a smaller rate never draws a wider bar |
| DisparityBarChart.TotalOfInsert | src/components/dashboard/DisparityBarChart.tsx:37 | inserting a category into the sorted list adds its count to the total |
| DisparityBarChart.TotalUnchangedBySorting | src/components/dashboard/DisparityBarChart.tsx:37 | the header's total equals the sum of the counts of the sorted bars |
| DisparityBarChart.TotalApplicants | src/components/dashboard/DisparityBarChart.tsx:37 | with non-negative counts the total is non-negative and at least each category's count |
| FeatureImportanceChart.SortedFeatures | src/components/dashboard/FeatureImportanceChart.tsx:11 | a permutation of the features in non-increasing importance |
| FeatureImportanceChart.FirstIsMostImportant | src/components/dashboard/FeatureImportanceChart.tsx:11 | the first row has the largest importance |
| FeatureImportanceChart.BadgeVariantOf | src/components/dashboard/FeatureImportanceChart.tsx:13-21 | high↔danger, medium↔warning, low↔info, none↔success; `secondary` is never returned |
| FeatureImportanceChart.BarColourOf | src/components/dashboard/FeatureImportanceChart.tsx:45-48 | green exactly for no bias |
| FeatureImportanceChart.BadgeAndBarAgree | src/components/dashboard/FeatureImportanceChart.tsx:45-48 | red↔danger, amber↔warning, teal↔info, green↔success |
| FeatureImportanceChart.ColoursDistinguishLevels | src/components/dashboard/FeatureImportanceChart.tsx:45-48 | distinct levels get distinct colours and badges |
| FeatureImportanceChart.BarWidth | src/components/dashboard/FeatureImportanceChart.tsx:49 | the width is the importance in percent, within [0, 100] for an importance in [0, 1] |
| FeatureImportanceChart.PercentLabel | src/components/dashboard/FeatureImportanceChart.tsx:39 | the printed percentage is within half a point of the bar width, non-negative for a non-negative width |
| FeatureImportanceChart.LabelsFollowBars | src/components/dashboard/FeatureImportanceChart.tsx:39-49 | labels lie in [0, 100] for importances in [0, 1] and never grow down the sorted chart |
| FeatureImportanceChart.WidthsNonIncreasing | src/components/dashboard/FeatureImportanceChart.tsx:11-49 | bars never grow down the sorted chart |
| SimulationResults.FirstMatch | src/components/mitigation/SimulationResults.tsx:13 | `find` returns the first index carrying the id, None exactly when none does |
| SimulationResults.StrategyName | src/components/mitigation/SimulationResults.tsx:12-15 | the first matching strategy's name, or "Unknown Strategy" when none matches |
| SimulationResults.RowOf | src/components/mitigation/SimulationResults.tsx:43-72 | a row keeps both disparities, shows "+" and green exactly for a positive impact, and a 100 % reduction for a mitigated disparity of 0 |
| SimulationResults.NameOfOwnId | src/components/mitigation/SimulationResults.tsx:12-15 | with distinct ids each strategy is named under its own id |
| SimulationResults.DisparityReduction | src/components/mitigation/SimulationResults.tsx:18-20 | (original − mitigated)/original·100: 0 when equal, positive when mitigated < original, within [0, 100] for 0 ≤ mitigated ≤ original, NaN for 0/0 |
| SimulationResults.ReductionEdges | src/components/mitigation/SimulationResults.tsx:58 | mitigated 0 shows 100; mitigated above original gives a negative value printed after the `-` |
| SimulationResults.ReductionAntitone | src/components/mitigation/SimulationResults.tsx:18-20 | a smaller mitigated disparity never shows a smaller reduction |
| SimulationResults.ImpactColourOf | src/components/mitigation/SimulationResults.tsx:62-67 | green iff > 0, amber iff in (−0.03, 0], red iff ≤ −0.03 |
| SimulationResults.ImpactPrefix | src/components/mitigation/SimulationResults.tsx:69 | "+" iff the impact is positive, else empty |
| SimulationResults.PlusExactlyWhenGreen | src/components/mitigation/SimulationResults.tsx:62-69 | the `+` and the green colour go together |
| SimulationResults.ImpactColourMonotone | src/components/mitigation/SimulationResults.tsx:62-67 | a larger impact never gets a worse colour |
| SimulationResults.Render | src/components/mitigation/SimulationResults.tsx:29-100 | placeholder iff no results; otherwise one row per result, in order, with its disparities, sign and colour |
| ModelComparisonSection.DisparityTier | src/sections/ModelComparison.tsx:32-33 | red iff > 0.2, amber iff in (0.1, 0.2], green iff ≤ 0.1 |
| ModelComparisonSection.TierAntitone | src/sections/ModelComparison.tsx:32-33 | a smaller disparity never gets a worse tier |
| ModelComparisonSection.DisparityBarWidth | src/sections/ModelComparison.tsx:35 | at most 100, non-negative for a non-negative disparity, twice the disparity in percent up to 0.5 |
| ModelComparisonSection.ExtremeRates | src/sections/ModelComparison.tsx:39-41 | max/min are absent exactly without categories, and min ≤ max otherwise |
| ModelComparisonSection.ReductionFactor | src/sections/ModelComparison.tsx:60 | the factor lies in [0.5, 0.7) |
| ModelComparisonSection.ReducedDisparity | src/sections/ModelComparison.tsx:60 | a non-negative disparity is reduced into [disparity/2, disparity], strictly when positive |
| ModelComparisonSection.HundredMinus | src/sections/ModelComparison.tsx:80 | `100 − x` on numbers: exact on finite values, NaN iff NaN |
| ModelComparisonSection.ShownReduction | src/sections/ModelComparison.tsx:80 | the shown reduction is NaN exactly for a zero disparity |
| ModelComparisonSection.ReductionBand | src/sections/ModelComparison.tsx:59-80 | for a non-zero disparity the shown reduction is 100 − 100·factor, within (30, 50]; a zero disparity shows NaN |
| ModelComparisonSection.ReducedNeverWorse | src/sections/ModelComparison.tsx:72-75 | the debiased tier is never worse and its bar never longer |
| ModelPerformanceComparison.EachMetricOnce | src/components/dashboard/ModelPerformanceComparison.tsx:12-18 | each metric of the record has exactly one row |
| ModelPerformanceComparison.ValueOf | src/components/dashboard/ModelPerformanceComparison.tsx:39-40 | a key reads one of the record's five metrics |
| ModelPerformanceComparison.PercentChange | src/components/dashboard/ModelPerformanceComparison.tsx:20-23 | (debiased − original)/original·100: 0 when equal; for original > 0 positive iff debiased > original, negative iff below; NaN for 0/0 |
| ModelPerformanceComparison.ToFixed1 | src/components/dashboard/ModelPerformanceComparison.tsx:22 | `toFixed(1)` prints a minus exactly for a negative value and the magnitude to within half a tenth |
| ModelPerformanceComparison.IsPositiveChange | src/components/dashboard/ModelPerformanceComparison.tsx:42 | the printed change parses as ≥ 0 iff it has no minus or is "-0.0"; "NaN" is not |
| ModelPerformanceComparison.PositiveIffAboveMinusHalfTenth | src/components/dashboard/ModelPerformanceComparison.tsx:21-42 | for a non-zero original the row is positive iff the change exceeds −0.05 |
| ModelPerformanceComparison.NoChangeIsPositive | src/components/dashboard/ModelPerformanceComparison.tsx:20-42 | an unchanged metric prints "0.0" and is positive |
| ModelPerformanceComparison.ChangeCell | src/components/dashboard/ModelPerformanceComparison.tsx:63-64 | the `+` and the green colour appear exactly when the printed change is positive |
| ModelPerformanceComparison.NegativeZeroShownPositive | src/components/dashboard/ModelPerformanceComparison.tsx:42-64 | a drop from 1 to 0.9996 prints "-0.0" in green with a `+` |
| ModelPerformanceComparison.F1Insight | src/components/dashboard/ModelPerformanceComparison.tsx:76-80 | "improved" iff debiased F1 ≥ original F1 |
| ModelPerformanceComparison.InsightImpliesGreenF1 | src/components/dashboard/ModelPerformanceComparison.tsx:76-80 | for a positive original F1, "improved" implies a green F1 row |
| ModelPerformanceComparison.InsightAndRowCanDisagree | src/components/dashboard/ModelPerformanceComparison.tsx:76-80 | "slightly reduced" can come with a green F1 row |
| BiasSensitivityTest.Disparity | src/components/detection/BiasSensitivityTest.tsx:25-28 | each disparity is max(0, base + threshold effect − weight effect) |
| BiasSensitivityTest.FairnessScore | src/components/detection/BiasSensitivityTest.tsx:29 | the score lies in [0, 100] |
| BiasSensitivityTest.SensitivityResultsOf | src/components/detection/BiasSensitivityTest.tsx:11-31 | all four disparities are ≥ 0 and the printed score is an integer in [0, 100] |
| BiasSensitivityTest.DefaultsShowBaseGaps | src/components/detection/BiasSensitivityTest.tsx:7-29 | at threshold 0.8 and weight 0.5 the results are 0.15, 0.20, 0.10, 0.25 and 65 |
| BiasSensitivityTest.Monotone | src/components/detection/BiasSensitivityTest.tsx:19-29 | raising threshold or weight never raises a disparity and never lowers the score |
| BiasSensitivityTest.SliderRangeScore | src/components/detection/BiasSensitivityTest.tsx:64-98 | over the sliders' ranges the clamp never bites and the score lies in [39, 86] |
| BiasSensitivityTest.FairnessRating | src/components/detection/BiasSensitivityTest.tsx:35-39 | Good iff ≥ 80, Fair iff in [60, 80), Poor iff < 60 |
| BiasSensitivityTest.RatingOfPrintedScore | src/components/detection/BiasSensitivityTest.tsx:29-41 | on the unrounded score the rating is Good iff ≥ 79.5 and Fair iff in [59.5, 79.5) |
| DashboardSection.SummaryOf | src/sections/Dashboard.tsx:11-15 | approved = the approved records ≤ total; rate·n = 100·approved within [0, 100]; averages·n = the field sums |
| DashboardSection.ApprovalRate | src/sections/Dashboard.tsx:13 | the rate lies in [0, 100] and times the count is 100·approved |
| DashboardSection.Average | src/sections/Dashboard.tsx:14-15 | the average times the count is the sum |
| DashboardSection.AverageRiskInRange | src/sections/Dashboard.tsx:15 | scores within [lo, hi] give an average risk score within [lo, hi] |
| DashboardSection.AverageLoanInRange | src/sections/Dashboard.tsx:14 | loan amounts within [lo, hi] give an average loan amount within [lo, hi] |
| DashboardSection.MockRecordsInRange | src/data/mockData.ts:31-64 | every generated record has a risk score in [3, 146] and a loan amount in [50000, 549999] |
| DashboardSection.MockAverages | src/sections/Dashboard.tsx:6-15 | over generated applicants the average risk score lies in [3, 146] and the average loan amount in [50000, 549999] |
| DashboardSection.MockAverageCanExceed100 | src/sections/Dashboard.tsx:15 | one applicant drawn with every draw 0 makes the average risk score 124 |
| MockData.Pick | src/data/mockData.ts:28-36 | `Math.floor(r·n)` for r in [0, 1) is an index below n |
| MockData.GenderFactor | src/data/mockData.ts:19-24 | every gender factor lies in (0, 1) |
| MockData.RaceFactor | src/data/mockData.ts:12-18 | every race factor lies in (0, 1) |
| MockData.MockGender | src/data/mockData.ts:28 | the gender comes from the fixed list |
| MockData.MockRace | src/data/mockData.ts:29 | the race comes from the fixed list |
| MockData.GenerateMockApplicants | src/data/mockData.ts:27-68 | exactly max(count, 0) records, record i being the one its draws produce |
| MockData.MockApplicant | src/data/mockData.ts:28-65 | the record of iteration i has id LOAN- plus i zero-padded |
| MockData.RawRisk | src/data/mockData.ts:39-43 | the unadjusted risk is non-negative, and positive for a credit score below 800 |
| MockData.BiasMultiplier | src/data/mockData.ts:46-48 | the multiplier lies in [1.175, 1.325], its minimum exactly for a white man |
| MockData.Approves | src/data/mockData.ts:48-51 | approved exactly when the raw risk is below 70 divided by the multiplier |
| MockData.FieldRanges | src/data/mockData.ts:31-36 | age in [18, 77], income in [20000, 169999], credit score in [500, 799], loan in [50000, 549999], debt-to-income in [0.1, 0.6), term 15 or 30, gender and race from the lists |
| MockData.MockRiskRange | src/data/mockData.ts:31-43 | the unadjusted risk of any draw lies in (3.4, 146.25), unclamped |
| MockData.RiskScoreRange | src/data/mockData.ts:64 | the stored score `Math.round(riskScore)` lies in [3, 146] |
| MockData.MockScoreCanExceed100 | src/data/mockData.ts:39-64 | every draw 0 stores a risk score of 124 |
| MockData.ApprovalRule | src/data/mockData.ts:39-64 | approved iff raw risk·(2 − (gender factor + race factor)/2) < 70; the stored score is the rounded raw risk |
| MockData.AdjustedRiskDominates | src/data/mockData.ts:39-48 | the multiplier exceeds 1 and the raw risk is positive, so the adjusted risk is at least the raw risk |
| MockData.ApprovedScoreAtMost70 | src/data/mockData.ts:39-64 | every approved applicant's stored score is at most 70 |
| MockData.ApprovedRiskBelow70 | src/data/mockData.ts:48-64 | an approved non-negative risk is below 70 and rounds to at most 70 |
| MockData.FavouredProfile | src/data/mockData.ts:11-51 | whoever is approved at a risk would be approved at that risk as a white man |
| MockData.BiasChangesOutcome | src/data/mockData.ts:46-51 | a raw risk of 59 is approved for a white man and refused for a black woman |
| MockData.GeneratedIds | src/data/mockData.ts:54 | the ids run LOAN-00000, LOAN-00001, … in loop order and never repeat |

## Left out

- Fetching and CSV parsing (`fetch`, `Papa.parse`) are not modelled: the loader takes the parsed rows, or None for a failed fetch or parse.
- `parseInt` and `parseFloat` are parameters that always return a number; their NaN results are not modelled.
- LoanData.MapRow: stores 0 as the risk score where the source stores NaN (a row whose loan amount and income both parse to 0); `RiskScoreOf` states the NaN case itself.
- `Math.random` is not modelled: the draws are parameters in [0, 1).
- Number formatting (`toFixed`, `toLocaleString`) is not modelled, except for `toFixed(1)` in the performance table, `toFixed(0)` in the feature labels, and the fairness score's `toFixed(0)` followed by `parseInt` in `BiasSensitivityTest.SensitivityResultsOf`. The "-0" string of a negative zero is not modelled.
- JavaScript numbers are exact reals plus infinities and NaN. Double rounding is not modelled, so a boundary comparison such as `value >= threshold * 0.8` may differ on doubles.
- Upper and lower case are mapped for ASCII letters only.
- `Object.entries` key order is a parameter (`keys`), and no bucket order is claimed.
- DataDistribution.GetDistribution: the counting table is a map, not a plain object, so categories named like members of `Object.prototype` ("constructor", "toString", "__proto__", ...) are counted like any other. In the source such a key reads the inherited member, its counts become NaN and `Object.entries` omits it, so those records vanish from the buckets and the totals no longer add up to the number of records.
- Sorting.SortDesc: stability of `Array.prototype.sort` is not proved, only sortedness and permutation.
- DashboardSection.SummaryOf: requires a non-empty applicant list, because the source divides by the count without a guard and an empty list gives NaN.
- MockData.GenerateMockApplicants: takes an integer `count`; a fractional count, which the loop would round up, is not modelled.
- The shipped `disparityMetrics` and other constant tables of `src/data/mockData.ts` are data, not computation.
- React state, markup, navigation and the static sections (`App.tsx`, the layout, `Tabs`, `Tooltip`, `Card`, `Resources`, `BiasDetection`, `BiasMitigation`, `BiasMitigationGuide`) hold no rules to prove.
- MitigationStrategies.tsx is not part of this model: its only logic is a three-way class switch.
- FeatureImportanceChart.BadgeVariantOf: the `default: 'secondary'` branch is unreachable for the four bias levels, and the contract states this rather than modelling the branch.

## Findings

| source | as written | input that shows it | evidently intended | confidence | as-written member | corrected member |
|---|---|---|---|---|---|---|
| src/components/dashboard/DisparityBarChart.tsx:63 | each bar's width is `approvalRate / maxApprovalRate * 100`, with no guard for a zero maximum | two categories, both with approval rate 0: the maximum is 0 and every width is 0/0 = NaN, so the CSS width is dropped and each bar fills its whole track | a zero maximum draws empty bars, and widths stay within [0, 100] | medium; not executed | DisparityBarChart.AllZeroRatesGiveNaN | DisparityBarChart.ShownWidth |
