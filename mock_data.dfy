/**
 * The mock applicant generator (src/data/mockData.ts, generateMockApplicants):
 * a counted loop that draws each field, scores the risk, applies the
 * demonstration bias factors to decide approval, and pushes the record.
 *
 * Math.random is not modelled: the eight draws of each iteration are given,
 * one `Draws` value per applicant, each draw in [0, 1).
 */
module MockData {
  import opened Types
  import opened Numeric
  import opened Text

  /** The eight Math.random() results one iteration consumes, in source order. */
  datatype Draws = Draws(gender: real, race: real, age: real, income: real,
                         creditScore: real, debtToIncome: real, loanAmount: real, loanTerm: real)


  predicate ValidDraws(d: Draws)
  {
    UnitInterval(d.gender) && UnitInterval(d.race) && UnitInterval(d.age) && UnitInterval(d.income)
    && UnitInterval(d.creditScore) && UnitInterval(d.debtToIncome) && UnitInterval(d.loanAmount) && UnitInterval(d.loanTerm)
  }

  const Genders: seq<string> := ["male", "female", "non-binary", "other"]
  const Races: seq<string> := ["white", "black", "hispanic", "asian", "other"]
  const LoanTerms: seq<int> := [15, 30]

  /** `Math.floor(r * n)` for a draw r in [0, 1): an index below n. */
  function Pick(r: real, n: nat): (k: nat)
    requires UnitInterval(r) && n > 0
    ensures k < n
  {
    assert 0.0 <= r * n as real < n as real;
    (r * n as real).Floor
  }

  /** `approvalBias.gender[gender]`. */
  function GenderFactor(g: string): (f: real)
    requires g in Genders
    ensures 0.0 < f < 1.0
  {
    if g == "male" then 0.80 else if g == "female" then 0.72 else 0.70
  }

  /** `approvalBias.race[race]`. */
  function RaceFactor(r: string): (f: real)
    requires r in Races
    ensures 0.0 < f < 1.0
  {
    if r == "white" then 0.85 else if r == "black" then 0.65
    else if r == "hispanic" then 0.70 else if r == "asian" then 0.80 else 0.75
  }

  /** `(800 - creditScore) * 0.4 + (debtToIncome * 100) * 0.3 + (loanAmount / income) * 0.3`. */
  function RawRisk(creditScore: int, debtToIncome: real, loanAmount: real, income: real): (r: real)
    requires income > 0.0
    ensures creditScore <= 800 && debtToIncome >= 0.0 && loanAmount >= 0.0 ==> r >= 0.0
    ensures creditScore < 800 && debtToIncome >= 0.0 && loanAmount >= 0.0 ==> r > 0.0
  {
    assert loanAmount >= 0.0 ==> loanAmount / income >= 0.0;
    (800 - creditScore) as real * 0.4 + (debtToIncome * 100.0) * 0.3 + (loanAmount / income) * 0.3
  }

  /** `2 - (genderFactor + raceFactor) / 2`. */
  function BiasMultiplier(gender: string, race: string): (m: real)
    requires gender in Genders && race in Races
    ensures 1.175 <= m <= 1.325
    ensures m == 1.175 <==> gender == "male" && race == "white"
  {
    2.0 - (GenderFactor(gender) + RaceFactor(race)) / 2.0
  }

  /** `adjustedRisk < 70`, where the adjusted risk is the raw risk times the
      bias multiplier of the applicant's gender and race. */
  function Approves(risk: real, gender: string, race: string): (b: bool)
    requires gender in Genders && race in Races
    ensures b <==> risk < 70.0 / BiasMultiplier(gender, race)
  {
    var m := BiasMultiplier(gender, race);
    assert risk * m < 70.0 <==> risk < 70.0 / m;
    risk * m < 70.0
  }

  /** `genders[Math.floor(Math.random() * genders.length)]`. */
  function MockGender(d: Draws): (g: string)
    requires ValidDraws(d)
    ensures g in Genders
  {
    Genders[Pick(d.gender, |Genders|)]
  }

  /** `races[Math.floor(Math.random() * races.length)]`. */
  function MockRace(d: Draws): (r: string)
    requires ValidDraws(d)
    ensures r in Races
  {
    Races[Pick(d.race, |Races|)]
  }

  /** `Math.floor(Math.random() * 150000) + 20000`. */
  function MockIncome(d: Draws): real
    requires ValidDraws(d)
  {
    (Pick(d.income, 150000) + 20000) as real
  }

  /** `Math.floor(Math.random() * 300) + 500`. */
  function MockCreditScore(d: Draws): int
    requires ValidDraws(d)
  {
    Pick(d.creditScore, 300) + 500
  }

  /** `(Math.random() * 0.5) + 0.1`. */
  function MockDebtToIncome(d: Draws): real
    requires ValidDraws(d)
  {
    d.debtToIncome * 0.5 + 0.1
  }

  /** `Math.floor(Math.random() * 500000) + 50000`. */
  function MockLoanAmount(d: Draws): real
    requires ValidDraws(d)
  {
    (Pick(d.loanAmount, 500000) + 50000) as real
  }

  /** The unadjusted risk of the drawn fields. */
  function MockRisk(d: Draws): real
    requires ValidDraws(d)
  {
    RawRisk(MockCreditScore(d), MockDebtToIncome(d), MockLoanAmount(d), MockIncome(d))
  }

  /** The record iteration i pushes: the body of the loop, which given its
      draws computes each field, the raw and the bias-adjusted risk, and the
      approval. */
  function MockApplicant(i: nat, d: Draws): (a: Applicant)
    requires ValidDraws(d)
    ensures a.id == LoanId(i)
  {
    Applicant(
      LoanId(i), Pick(d.age, 60) + 18, MockGender(d), MockRace(d), MockIncome(d),
      MockCreditScore(d), MockDebtToIncome(d), MockLoanAmount(d),
      LoanTerms[Pick(d.loanTerm, |LoanTerms|)],
      Approves(MockRisk(d), MockGender(d), MockRace(d)),
      RoundHalfUp(MockRisk(d)) as real)
  }

  /** generateMockApplicants(count): one iteration per index below count, in
      order, each pushing the record its draws produce. */
  method GenerateMockApplicants(count: int, draws: seq<Draws>) returns (applicants: seq<Applicant>)
    requires count <= |draws|
    requires forall k :: 0 <= k < |draws| ==> ValidDraws(draws[k])
    ensures |applicants| == if count > 0 then count else 0
    ensures forall k :: 0 <= k < |applicants| ==> applicants[k] == MockApplicant(k, draws[k])
  {
    applicants := [];
    var i := 0;
    while i < count
      invariant 0 <= i <= (if count > 0 then count else 0)
      invariant |applicants| == i
      invariant forall k :: 0 <= k < i ==> applicants[k] == MockApplicant(k, draws[k])
      decreases count - i
    {
      ghost var before := applicants;
      applicants := applicants + [MockApplicant(i, draws[i])];
      assert forall k :: 0 <= k < i ==> applicants[k] == before[k];
      i := i + 1;
    }
  }

  /** Every field lies in the range its draw allows. */
  lemma FieldRanges(i: nat, d: Draws)
    requires ValidDraws(d)
    ensures var a := MockApplicant(i, d);
      && 18 <= a.age <= 77
      && 20000.0 <= a.income <= 169999.0
      && 500 <= a.creditScore <= 799
      && 50000.0 <= a.loanAmount <= 549999.0
      && 0.1 <= a.debtToIncome < 0.6
      && (a.loanTerm == 15 || a.loanTerm == 30)
      && a.gender in Genders && a.race in Races
  {
  }

  /** The stored score, the rounded unadjusted risk, lies in [3, 146]. */
  lemma RiskScoreRange(i: nat, d: Draws)
    requires ValidDraws(d)
    ensures 3.0 <= MockApplicant(i, d).riskScore <= 146.0
  {
    MockRiskRange(d);
    var n := RoundHalfUp(MockRisk(d));
    assert 3 <= n <= 146;
    assert MockApplicant(i, d).riskScore == n as real;
  }

  /** The unadjusted risk of any draw lies in (3.4, 146.25): the credit term
      contributes 0.4 to 120, the debt term 3 to 18 and the loan-to-income
      term less than 8.25. It is not clamped to [0, 100]. */
  lemma MockRiskRange(d: Draws)
    requires ValidDraws(d)
    ensures 3.4 < MockRisk(d) < 146.25
  {
    var c, t, l, inc := MockCreditScore(d), MockDebtToIncome(d), MockLoanAmount(d), MockIncome(d);
    assert 500 <= c <= 799 && 0.1 <= t < 0.6;
    assert 50000.0 <= l <= 549999.0 && 20000.0 <= inc;
    assert l < 27.5 * inc;
    assert 0.0 < l / inc < 27.5 by {
      assert l / inc * inc == l;
    }
  }

  /** With every draw 0 (credit score 500, debt ratio 0.1, loan 50000,
      income 20000) the stored risk score is 124, above 100. */
  lemma MockScoreCanExceed100()
    ensures MockApplicant(0, Draws(0.0, 0.0, 0.0, 0.0, 0.0, 0.0, 0.0, 0.0)).riskScore == 124.0
  {
    var d := Draws(0.0, 0.0, 0.0, 0.0, 0.0, 0.0, 0.0, 0.0);
    assert Pick(0.0, 300) == 0 && Pick(0.0, 150000) == 0 && Pick(0.0, 500000) == 0;
    assert MockRisk(d) == 123.75;
  }

  /** Approval is decided on the bias-adjusted risk, while the stored score
      is the unadjusted risk rounded to an integer. */
  lemma ApprovalRule(i: nat, d: Draws)
    requires ValidDraws(d)
    ensures var a := MockApplicant(i, d);
      var risk := RawRisk(a.creditScore, a.debtToIncome, a.loanAmount, a.income);
      && (a.approved <==> Approves(risk, a.gender, a.race))
      && a.riskScore == RoundHalfUp(risk) as real
  {
    var a := MockApplicant(i, d);
    assert RawRisk(a.creditScore, a.debtToIncome, a.loanAmount, a.income) == MockRisk(d);
  }

  /** Every bias factor is below 1, so the multiplier exceeds 1; the raw risk
      is positive since the credit score stays below 800, so the adjusted
      risk is never below it. */
  lemma AdjustedRiskDominates(i: nat, d: Draws)
    requires ValidDraws(d)
    ensures var a := MockApplicant(i, d);
      var risk := RawRisk(a.creditScore, a.debtToIncome, a.loanAmount, a.income);
      && BiasMultiplier(a.gender, a.race) > 1.0
      && risk > 0.0
      && risk * BiasMultiplier(a.gender, a.race) >= risk
  {
    var a := MockApplicant(i, d);
    FieldRanges(i, d);
    var risk := RawRisk(a.creditScore, a.debtToIncome, a.loanAmount, a.income);
    assert risk > 0.0;
    ScaledUp(risk, BiasMultiplier(a.gender, a.race));
  }

  lemma ScaledUp(x: real, m: real)
    requires x > 0.0 && m > 1.0
    ensures x * m >= x
  {
    assert x * m - x == x * (m - 1.0);
  }

  /** Since the adjusted risk dominates the raw risk, every approved
      applicant's stored (unadjusted, rounded) score is at most 70. */
  lemma ApprovedScoreAtMost70(i: nat, d: Draws)
    requires ValidDraws(d)
    ensures var a := MockApplicant(i, d);
      a.approved ==> a.riskScore <= 70.0
  {
    var a := MockApplicant(i, d);
    ApprovalRule(i, d);
    AdjustedRiskDominates(i, d);
    var risk := RawRisk(a.creditScore, a.debtToIncome, a.loanAmount, a.income);
    if a.approved {
      ApprovedRiskBelow70(risk, a.gender, a.race);
    }
  }

  /** A non-negative risk approved under a multiplier above 1 is below 70,
      and so is its rounding. */
  lemma ApprovedRiskBelow70(risk: real, gender: string, race: string)
    requires gender in Genders && race in Races
    requires risk >= 0.0 && Approves(risk, gender, race)
    ensures risk < 70.0 && RoundHalfUp(risk) <= 70
  {
    var m := BiasMultiplier(gender, race);
    assert risk * m >= risk;
  }

  /** White men carry the largest factors and so the smallest multiplier:
      whoever is approved at a given risk would also be approved at that risk
      as a white man. */
  lemma FavouredProfile(risk: real, gender: string, race: string)
    requires risk >= 0.0 && gender in Genders && race in Races
    requires Approves(risk, gender, race)
    ensures Approves(risk, "male", "white")
  {
    var m := BiasMultiplier(gender, race);
    assert BiasMultiplier("male", "white") <= m;
    assert risk * BiasMultiplier("male", "white") <= risk * m;
  }

  /** The bias changes outcomes: a raw risk of 59 is approved for a white man
      and refused for a black woman. */
  lemma BiasChangesOutcome()
    ensures Approves(59.0, "male", "white")
    ensures !Approves(59.0, "female", "black")
  {
  }

  /** The generated ids run LOAN-00000, LOAN-00001, ... and never repeat. */
  lemma GeneratedIds(draws: seq<Draws>, applicants: seq<Applicant>)
    requires |applicants| <= |draws|
    requires forall k :: 0 <= k < |draws| ==> ValidDraws(draws[k])
    requires forall k :: 0 <= k < |applicants| ==> applicants[k] == MockApplicant(k, draws[k])
    ensures forall k :: 0 <= k < |applicants| ==> applicants[k].id == LoanId(k)
    ensures forall j, k :: 0 <= j < k < |applicants| ==> applicants[j].id != applicants[k].id
  {
    forall j, k | 0 <= j < k < |applicants|
      ensures applicants[j].id != applicants[k].id
    {
      LoanIdInjective(j, k);
    }
  }
}
