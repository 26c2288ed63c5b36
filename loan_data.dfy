/**
 * The CSV loader (src/data/loanData.ts): each parsed row becomes a loan
 * applicant (id from the row index, lower-cased gender and race, field
 * defaults, the approval token rule) with a risk score that starts at 50 and
 * is adjusted step by step before being clamped to [0, 100].
 *
 * A row is what the CSV parser hands over with `header: true`: a text value
 * per column, or nothing when the column is missing. parseInt and parseFloat
 * are given as parameters; they always return a number here.
 */
module LoanData {
  import opened Types
  import opened Numeric
  import opened Text

  datatype Row = Row(
    age: Option<string>,
    gender: Option<string>,
    race: Option<string>,
    income: Option<string>,
    creditScore: Option<string>,
    debtToIncome: Option<string>,
    loanAmount: Option<string>,
    loanTerm: Option<string>,
    approved: Option<string>)

  datatype Parsers = Parsers(parseInt: string -> int, parseFloat: string -> real)

  /** JavaScript truthiness of a cell: present and not the empty string. */
  predicate Truthy(cell: Option<string>)
  {
    cell.Some? && cell.value != ""
  }

  /** The text a parser sees: a missing cell is converted to "undefined". */
  function TextOf(cell: Option<string>): string
  {
    if cell.Some? then cell.value else "undefined"
  }

  /** `cell || fallback`. */
  function OrDefault(cell: Option<string>, fallback: string): (s: string)
    ensures Truthy(cell) ==> s == cell.value
    ensures !Truthy(cell) ==> s == fallback
  {
    if Truthy(cell) then cell.value else fallback
  }

  /** `row.approved === 'true' || row.approved === '1' || row.approved === 'yes'`. */
  function ApprovedToken(cell: Option<string>): (b: bool)
    ensures b ==> Truthy(cell) && HasNoUpper(cell.value)
  {
    cell == Some("true") || cell == Some("1") || cell == Some("yes")
  }

  /** The token comparison is exact: other spellings and a missing cell are
      not approvals. */
  lemma ApprovedTokenIsCaseSensitive()
    ensures ApprovedToken(Some("true")) && ApprovedToken(Some("1")) && ApprovedToken(Some("yes"))
    ensures !ApprovedToken(Some("TRUE")) && !ApprovedToken(Some("Yes")) && !ApprovedToken(Some("True"))
    ensures !ApprovedToken(Some("")) && !ApprovedToken(None)
  {
  }

  /** `(parseInt(credit_score) / 850) * 30`, subtracted when the cell is truthy. */
  function CreditTerm(row: Row, p: Parsers): (t: real)
    ensures !Truthy(row.creditScore) ==> t == 0.0
    ensures Truthy(row.creditScore) && 0 <= p.parseInt(row.creditScore.value) <= 850 ==> 0.0 <= t <= 30.0
  {
    if Truthy(row.creditScore) then p.parseInt(row.creditScore.value) as real / 850.0 * 30.0 else 0.0
  }

  /** `parseFloat(debt_to_income) * 20`, added when the cell is truthy. */
  function DebtTerm(row: Row, p: Parsers): (t: real)
    ensures !Truthy(row.debtToIncome) ==> t == 0.0
    ensures Truthy(row.debtToIncome) && 0.0 <= p.parseFloat(row.debtToIncome.value) <= 1.0 ==> 0.0 <= t <= 20.0
  {
    if Truthy(row.debtToIncome) then p.parseFloat(row.debtToIncome.value) * 20.0 else 0.0
  }

  /** Whether the loan-to-income step runs. */
  predicate HasLoanRatio(row: Row)
  {
    Truthy(row.loanAmount) && Truthy(row.income)
  }

  /** `(parseFloat(loan_amount) / parseFloat(income)) * 20`; an income that
      parses to 0 gives an infinity, or NaN for a zero loan amount. */
  function LoanTerm(row: Row, p: Parsers): (t: Num)
    requires HasLoanRatio(row)
    ensures p.parseFloat(row.income.value) > 0.0 && p.parseFloat(row.loanAmount.value) >= 0.0 ==> t.Fin? && t.v >= 0.0
    ensures t.NaN? <==> p.parseFloat(row.loanAmount.value) == 0.0 && p.parseFloat(row.income.value) == 0.0
  {
    ScaleNum(Div(p.parseFloat(row.loanAmount.value), p.parseFloat(row.income.value)), 20.0)
  }

  /** The risk score in closed form: 50, minus the credit term, plus the debt
      term, plus the loan term when it applies, clamped to [0, 100]. */
  function RiskScoreOf(row: Row, p: Parsers): (r: Num)
    ensures r.NaN? <==> HasLoanRatio(row) && p.parseFloat(row.loanAmount.value) == 0.0 && p.parseFloat(row.income.value) == 0.0
    ensures !r.NaN? ==> r.Fin? && 0.0 <= r.v <= 100.0
  {
    var base := 50.0 - CreditTerm(row, p) + DebtTerm(row, p);
    if HasLoanRatio(row) then ClampNum(0.0, 100.0, AddNum(Fin(base), LoanTerm(row, p)))
    else ClampNum(0.0, 100.0, Fin(base))
  }

  /** calculateRiskScore: `let score = 50`, then each present field adjusts it
      in turn, and the result is clamped. */
  method CalculateRiskScore(row: Row, p: Parsers) returns (score: Num)
    ensures score == RiskScoreOf(row, p)
  {
    score := Fin(50.0);
    if Truthy(row.creditScore) {
      score := AddNum(score, Fin(-(p.parseInt(row.creditScore.value) as real / 850.0 * 30.0)));
    }
    if Truthy(row.debtToIncome) {
      score := AddNum(score, Fin(p.parseFloat(row.debtToIncome.value) * 20.0));
    }
    if Truthy(row.loanAmount) && Truthy(row.income) {
      score := AddNum(score, ScaleNum(Div(p.parseFloat(row.loanAmount.value), p.parseFloat(row.income.value)), 20.0));
    }
    score := ClampNum(0.0, 100.0, score);
  }

  /** A row with none of the three adjustments scores exactly 50. */
  lemma NeutralScore(row: Row, p: Parsers)
    requires !Truthy(row.creditScore) && !Truthy(row.debtToIncome) && !HasLoanRatio(row)
    ensures RiskScoreOf(row, p) == Fin(50.0)
  {
  }

  /** A non-negative credit score only lowers the score: dropping the cell
      never gives a smaller one. */
  lemma CreditScoreLowers(row: Row, p: Parsers)
    requires Truthy(row.creditScore) && p.parseInt(row.creditScore.value) >= 0
    ensures var without := RiskScoreOf(row.(creditScore := None), p);
      var with := RiskScoreOf(row, p);
      with.NaN? == without.NaN? && (with.Fin? ==> with.v <= without.v)
  {
    var lower := 50.0 - CreditTerm(row, p) + DebtTerm(row, p);
    var upper := 50.0 - CreditTerm(row.(creditScore := None), p) + DebtTerm(row.(creditScore := None), p);
    assert lower <= upper;
    if HasLoanRatio(row) {
      var t := LoanTerm(row, p);
      assert t == LoanTerm(row.(creditScore := None), p);
      if t.Fin? {
        ClampMonotone(0.0, 100.0, lower + t.v, upper + t.v);
      }
    } else {
      ClampMonotone(0.0, 100.0, lower, upper);
    }
  }

  /** A non-negative debt-to-income ratio only raises the score. */
  lemma DebtRaises(row: Row, p: Parsers)
    requires Truthy(row.debtToIncome) && p.parseFloat(row.debtToIncome.value) >= 0.0
    ensures var without := RiskScoreOf(row.(debtToIncome := None), p);
      var with := RiskScoreOf(row, p);
      with.NaN? == without.NaN? && (with.Fin? ==> without.v <= with.v)
  {
    var upper := 50.0 - CreditTerm(row, p) + DebtTerm(row, p);
    var lower := 50.0 - CreditTerm(row.(debtToIncome := None), p) + DebtTerm(row.(debtToIncome := None), p);
    assert lower <= upper;
    if HasLoanRatio(row) {
      var t := LoanTerm(row, p);
      assert t == LoanTerm(row.(debtToIncome := None), p);
      if t.Fin? {
        ClampMonotone(0.0, 100.0, lower + t.v, upper + t.v);
      }
    } else {
      ClampMonotone(0.0, 100.0, lower, upper);
    }
  }

  /** A non-negative loan amount over a positive income only raises the score. */
  lemma LoanRatioRaises(row: Row, p: Parsers)
    requires HasLoanRatio(row)
    requires p.parseFloat(row.loanAmount.value) >= 0.0 && p.parseFloat(row.income.value) > 0.0
    ensures var without := RiskScoreOf(row.(loanAmount := None), p);
      var with := RiskScoreOf(row, p);
      with.Fin? && without.Fin? && without.v <= with.v
  {
    var base := 50.0 - CreditTerm(row, p) + DebtTerm(row, p);
    var q := p.parseFloat(row.loanAmount.value) / p.parseFloat(row.income.value);
    assert q >= 0.0;
    assert LoanTerm(row, p) == Fin(q * 20.0);
    ClampMonotone(0.0, 100.0, base, base + q * 20.0);
  }

  /** The record one row becomes: `row.gender.toLowerCase()` throws on a missing
      gender or race, which None stands for. */
  function MapRow(row: Row, index: nat, p: Parsers): (a: Option<Applicant>)
    ensures a.Some? <==> row.gender.Some? && row.race.Some?
    ensures a.Some? ==> a.value.id == LoanId(index)
    ensures a.Some? ==> a.value.gender == ToLower(row.gender.value) && a.value.race == ToLower(row.race.value)
    ensures a.Some? ==> a.value.approved == ApprovedToken(row.approved)
    ensures a.Some? && RiskScoreOf(row, p).Fin? ==> a.value.riskScore == RiskScoreOf(row, p).v
    ensures a.Some? ==> 0.0 <= a.value.riskScore <= 100.0
  {
    if row.gender.None? || row.race.None? then None
    else
      var risk := RiskScoreOf(row, p);
      Some(Applicant(
        LoanId(index),
        p.parseInt(TextOf(row.age)),
        ToLower(row.gender.value),
        ToLower(row.race.value),
        p.parseFloat(TextOf(row.income)),
        p.parseInt(TextOf(row.creditScore)),
        p.parseFloat(OrDefault(row.debtToIncome, "0")),
        p.parseFloat(TextOf(row.loanAmount)),
        p.parseInt(OrDefault(row.loanTerm, "30")),
        ApprovedToken(row.approved),
        if risk.Fin? then risk.v else 0.0))
  }

  /** A missing or empty debt-to-income cell is parsed as "0", a missing or
      empty loan-term cell as "30". */
  lemma FieldDefaults(row: Row, index: nat, p: Parsers)
    requires row.gender.Some? && row.race.Some?
    ensures !Truthy(row.debtToIncome) ==> MapRow(row, index, p).value.debtToIncome == p.parseFloat("0")
    ensures !Truthy(row.loanTerm) ==> MapRow(row, index, p).value.loanTerm == p.parseInt("30")
    ensures Truthy(row.loanTerm) ==> MapRow(row, index, p).value.loanTerm == p.parseInt(row.loanTerm.value)
    ensures Truthy(row.debtToIncome) ==> MapRow(row, index, p).value.debtToIncome == p.parseFloat(row.debtToIncome.value)
  {
  }

  /** `data.map((row, index) => ...)`: None when mapping some row throws. */
  function MapRows(rows: seq<Row>, p: Parsers): (r: Option<seq<Applicant>>)
    ensures r.Some? <==> forall i :: 0 <= i < |rows| ==> rows[i].gender.Some? && rows[i].race.Some?
    ensures r.Some? ==> |r.value| == |rows|
    ensures r.Some? ==> forall i :: 0 <= i < |rows| ==> MapRow(rows[i], i, p) == Some(r.value[i])
  {
    if forall i :: 0 <= i < |rows| ==> rows[i].gender.Some? && rows[i].race.Some? then
      Some(seq(|rows|, i requires 0 <= i < |rows| && rows[i].gender.Some? && rows[i].race.Some? => MapRow(rows[i], i, p).value))
    else None
  }

  /** loadLoanData: the fetched and parsed rows (None when fetching or parsing
      fails), mapped; any failure gives the empty list. */
  function LoadLoanData(parsed: Option<seq<Row>>, p: Parsers): (data: seq<Applicant>)
    ensures parsed.None? ==> data == []
    ensures parsed.Some? && MapRows(parsed.value, p).Some? ==> |data| == |parsed.value|
    ensures parsed.Some? && MapRows(parsed.value, p).Some? ==> data == MapRows(parsed.value, p).value
    ensures parsed.Some? && MapRows(parsed.value, p).None? ==> data == []
  {
    if parsed.None? then []
    else
      var mapped := MapRows(parsed.value, p);
      if mapped.Some? then mapped.value else []
  }

  /** A single row without a gender or race empties the whole load. */
  lemma OneBadRowEmptiesLoad(rows: seq<Row>, p: Parsers, k: nat)
    requires k < |rows| && (rows[k].gender.None? || rows[k].race.None?)
    ensures LoadLoanData(Some(rows), p) == []
  {
  }

  /** A successful load has one record per row in row order, with ids
      LOAN-00000, LOAN-00001, ... that are pairwise distinct, exactly ten
      characters below 100000 rows, and lower-cased gender and race. */
  lemma LoadedRecords(rows: seq<Row>, p: Parsers)
    requires forall i :: 0 <= i < |rows| ==> rows[i].gender.Some? && rows[i].race.Some?
    ensures var data := LoadLoanData(Some(rows), p);
      && |data| == |rows|
      && (forall i :: 0 <= i < |data| ==> data[i].id == LoanId(i))
      && (forall i, j :: 0 <= i < j < |data| ==> data[i].id != data[j].id)
      && (forall i :: 0 <= i < |data| && i < 100000 ==> |data[i].id| == 10)
      && (forall i :: 0 <= i < |data| ==> HasNoUpper(data[i].gender) && HasNoUpper(data[i].race))
  {
    var data := LoadLoanData(Some(rows), p);
    forall i | 0 <= i < |data|
      ensures data[i].id == LoanId(i)
    {
      assert MapRow(rows[i], i, p) == Some(data[i]);
    }
    forall i, j | 0 <= i < j < |data|
      ensures data[i].id != data[j].id
    {
      LoanIdInjective(i, j);
    }
    forall i | 0 <= i < |data| && i < 100000
      ensures |data[i].id| == 10
    {
      LoanIdLength(i);
    }
    forall i | 0 <= i < |data|
      ensures HasNoUpper(data[i].gender) && HasNoUpper(data[i].race)
    {
      assert MapRow(rows[i], i, p) == Some(data[i]);
    }
  }
}
