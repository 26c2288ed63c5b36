/**
 * The summary statistics of the dashboard page (src/sections/Dashboard.tsx):
 * the number of applications, the approved ones, the approval rate in
 * percent and the average loan amount and risk score. The source divides
 * by the number of applications without a guard, so a non-empty applicant
 * list is required. The page averages the generated mock applicants, whose
 * risk scores are not clamped to [0, 100].
 */
module DashboardSection {
  import opened Types
  import opened Numeric
  import opened MockData

  datatype Summary = Summary(totalApplications: nat, approvedApplications: nat,
                             approvalRate: real, avgLoanAmount: real, avgRiskScore: real)

  function LoanAmount(a: Applicant): real
  {
    a.loanAmount
  }

  function RiskScore(a: Applicant): real
  {
    a.riskScore
  }

  /** `(approvedApplications / totalApplications) * 100`. */
  function ApprovalRate(apps: seq<Applicant>): (r: real)
    requires |apps| > 0
    ensures 0.0 <= r <= 100.0
    ensures r * |apps| as real == 100.0 * ApprovedCount(apps) as real
  {
    var share := ApprovedCount(apps) as real / |apps| as real;
    assert share <= 1.0;
    share * 100.0
  }

  /** `apps.reduce((sum, app) => sum + f(app), 0) / totalApplications`. */
  function Average(apps: seq<Applicant>, f: Applicant -> real): (m: real)
    requires |apps| > 0
    ensures m * |apps| as real == SumOf(apps, f)
  {
    SumOf(apps, f) / |apps| as real
  }

  /** Lines 11-15 of the page, over a non-empty applicant list. */
  function SummaryOf(apps: seq<Applicant>): (s: Summary)
    requires |apps| > 0
    ensures s.totalApplications == |apps|
    ensures s.approvedApplications == ApprovedCount(apps) <= s.totalApplications
    ensures 0.0 <= s.approvalRate <= 100.0
    ensures s.approvalRate * |apps| as real == 100.0 * ApprovedCount(apps) as real
    ensures s.avgLoanAmount * |apps| as real == SumOf(apps, LoanAmount)
    ensures s.avgRiskScore * |apps| as real == SumOf(apps, RiskScore)
  {
    Summary(|apps|, ApprovedCount(apps), ApprovalRate(apps), Average(apps, LoanAmount), Average(apps, RiskScore))
  }

  /** An average lies between the smallest and largest values averaged:
      with every risk score in [lo, hi], so is the average risk score. */
  lemma AverageRiskInRange(apps: seq<Applicant>, lo: real, hi: real)
    requires |apps| > 0
    requires forall i :: 0 <= i < |apps| ==> lo <= apps[i].riskScore <= hi
    ensures lo <= SummaryOf(apps).avgRiskScore <= hi
  {
    SumOfBounds(apps, RiskScore, lo, hi);
    MeanBounds(SumOf(apps, RiskScore), |apps| as real, lo, hi);
    assert SummaryOf(apps).avgRiskScore == Average(apps, RiskScore);
  }

  /** Likewise for the average loan amount. */
  lemma AverageLoanInRange(apps: seq<Applicant>, lo: real, hi: real)
    requires |apps| > 0
    requires forall i :: 0 <= i < |apps| ==> lo <= apps[i].loanAmount <= hi
    ensures lo <= SummaryOf(apps).avgLoanAmount <= hi
  {
    SumOfBounds(apps, LoanAmount, lo, hi);
    MeanBounds(SumOf(apps, LoanAmount), |apps| as real, lo, hi);
    assert SummaryOf(apps).avgLoanAmount == Average(apps, LoanAmount);
  }

  /** The page averages the generated mock applicants, whose scores are not
      clamped: the average risk score lies in [3, 146] and the average loan
      amount in [50000, 549999]. */
  lemma MockAverages(draws: seq<Draws>, apps: seq<Applicant>)
    requires 0 < |apps| <= |draws|
    requires forall k :: 0 <= k < |draws| ==> ValidDraws(draws[k])
    requires forall k :: 0 <= k < |apps| ==> apps[k] == MockApplicant(k, draws[k])
    ensures 3.0 <= SummaryOf(apps).avgRiskScore <= 146.0
    ensures 50000.0 <= SummaryOf(apps).avgLoanAmount <= 549999.0
  {
    MockRecordsInRange(draws, apps);
    AverageRiskInRange(apps, 3.0, 146.0);
    AverageLoanInRange(apps, 50000.0, 549999.0);
  }

  lemma MockRecordsInRange(draws: seq<Draws>, apps: seq<Applicant>)
    requires |apps| <= |draws|
    requires forall k :: 0 <= k < |draws| ==> ValidDraws(draws[k])
    requires forall k :: 0 <= k < |apps| ==> apps[k] == MockApplicant(k, draws[k])
    ensures forall k :: 0 <= k < |apps| ==> 3.0 <= apps[k].riskScore <= 146.0
    ensures forall k :: 0 <= k < |apps| ==> 50000.0 <= apps[k].loanAmount <= 549999.0
  {
    forall k | 0 <= k < |apps|
      ensures 3.0 <= apps[k].riskScore <= 146.0
      ensures 50000.0 <= apps[k].loanAmount <= 549999.0
    {
      FieldRanges(k, draws[k]);
      RiskScoreRange(k, draws[k]);
    }
  }

  /** The average risk score can leave [0, 100]: one mock applicant drawn
      with every draw 0 gives an average of 124. */
  lemma MockAverageCanExceed100()
    ensures SummaryOf([MockApplicant(0, Draws(0.0, 0.0, 0.0, 0.0, 0.0, 0.0, 0.0, 0.0))]).avgRiskScore == 124.0
  {
    var a := MockApplicant(0, Draws(0.0, 0.0, 0.0, 0.0, 0.0, 0.0, 0.0, 0.0));
    MockScoreCanExceed100();
    assert SumOf([a], RiskScore) == 124.0 by {
      assert [a][..0] == [];
    }
  }
}
