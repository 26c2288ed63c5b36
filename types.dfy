/**
 * The records and enumerations shared by the dashboard (src/types/index.ts),
 * with rates, weights and money amounts as exact reals.
 */
module Types {

  datatype Option<+T> = None | Some(value: T)

  /** One loan application. `gender` and `race` are kept as strings: the
      CSV loader stores whatever lower-cased text the file holds. */
  datatype Applicant = Applicant(
    id: string,
    age: int,
    gender: string,
    race: string,
    income: real,
    creditScore: int,
    debtToIncome: real,
    loanAmount: real,
    loanTerm: int,
    approved: bool,
    riskScore: real)

  /** A named fairness statistic with the threshold it is judged against. */
  datatype BiasMetric = BiasMetric(name: string, value: real, threshold: real, description: string)

  datatype ModelPerformance = ModelPerformance(accuracy: real, precision: real, recall: real, f1Score: real, auc: real)

  datatype ModelComparison = ModelComparison(original: ModelPerformance, debiased: ModelPerformance)

  datatype PotentialBias = High | Medium | Low | NoBias

  datatype FeatureImportance = FeatureImportance(feature: string, importance: real, potentialBias: PotentialBias)

  datatype Level = LevelHigh | LevelMedium | LevelLow

  datatype MitigationStrategy = MitigationStrategy(
    id: string,
    name: string,
    description: string,
    impact: Level,
    implementationComplexity: Level,
    selectedForSimulation: bool)

  datatype SimulationResult = SimulationResult(
    strategyId: string,
    originalDisparity: real,
    mitigatedDisparity: real,
    performanceImpact: real)

  datatype ProtectedAttribute = Gender | Race | Age

  /** The attribute's name as the source spells it ('gender', 'race', 'age'). */
  function AttributeKey(attr: ProtectedAttribute): string
  {
    match attr
    case Gender => "gender"
    case Race => "race"
    case Age => "age"
  }

  datatype CategoryStat = CategoryStat(category: string, approvalRate: real, count: int)

  datatype DisparityMetric = DisparityMetric(attribute: ProtectedAttribute, disparity: real, categories: seq<CategoryStat>)

  /** `data.filter(a => a.approved).length`, shared by the distribution chart
      and the dashboard summary. */
  function ApprovedCount(data: seq<Applicant>): (n: nat)
    ensures n <= |data|
  {
    if data == [] then 0
    else ApprovedCount(data[..|data| - 1]) + (if data[|data| - 1].approved then 1 else 0)
  }
}
