/**
 * Key-figure classification and overall rating of a dividend stock
 * (app/stock_analysis.py).
 *
 * Financial statements are reduced to what the analysis reads from them: for
 * every row, its label and the cell in the latest reporting column. The
 * company info dictionary is reduced to the six numeric fields the analysis
 * reads. Amounts are exact reals.
 */
module StockAnalysis {
  import opened Wrappers
  import opened Text

  // ---------------------------------------------------------------------------
  // ISIN detection and resolution to a ticker symbol
  // ---------------------------------------------------------------------------

  predicate IsLetter(c: char) {
    'a' <= c <= 'z' || 'A' <= c <= 'Z'
  }

  predicate IsLetterOrDigit(c: char) {
    IsLetter(c) || '0' <= c <= '9'
  }

  /** Python's str.isalpha: non-empty and letters only. */
  function IsAlpha(s: string): (r: bool)
    ensures r <==> |s| > 0 && forall i :: 0 <= i < |s| ==> IsLetter(s[i])
  {
    if |s| == 0 then false
    else if |s| == 1 then IsLetter(s[0])
    else IsLetter(s[0]) && IsAlpha(s[1..])
  }

  /** Python's str.isalnum: non-empty and letters or digits only. */
  function IsAlnum(s: string): (r: bool)
    ensures r <==> |s| > 0 && forall i :: 0 <= i < |s| ==> IsLetterOrDigit(s[i])
  {
    if |s| == 0 then false
    else if |s| == 1 then IsLetterOrDigit(s[0])
    else IsLetterOrDigit(s[0]) && IsAlnum(s[1..])
  }

  /** The shape of an ISIN: twelve characters, two leading letters, all alphanumeric. */
  function LooksLikeIsin(symbol: string): (r: bool)
    ensures r <==> |symbol| == 12 && IsLetter(symbol[0]) && IsLetter(symbol[1])
                   && forall i :: 0 <= i < 12 ==> IsLetterOrDigit(symbol[i])
  {
    if |symbol| != 12 then false
    else IsAlpha(symbol[..2]) && IsAlnum(symbol)
  }

  /** One entry of the quote search response; a key may be absent. */
  datatype Quote = Quote(quoteType: Option<string>, symbol: Option<string>)

  /** The quote search call: it failed (network, HTTP status, JSON), or it gave quotes. */
  datatype Search = SearchFailed | SearchOk(quotes: seq<Quote>)

  /** A symbol that is present and not empty (a truthy value in Python). */
  predicate HasSymbol(q: Quote) {
    q.symbol.Some? && q.symbol.value != ""
  }

  predicate IsListedEquity(q: Quote) {
    q.quoteType == Some("EQUITY") && HasSymbol(q)
  }

  /** Position of the first equity quote that carries a symbol. */
  function FirstEquity(quotes: seq<Quote>): (r: Option<nat>)
    ensures r.Some? ==> r.value < |quotes| && IsListedEquity(quotes[r.value])
                        && forall j :: 0 <= j < r.value ==> !IsListedEquity(quotes[j])
    ensures r.None? ==> forall j :: 0 <= j < |quotes| ==> !IsListedEquity(quotes[j])
  {
    if quotes == [] then None
    else if IsListedEquity(quotes[0]) then Some(0)
    else match FirstEquity(quotes[1..])
      case None => None
      case Some(k) => Some(k + 1)
  }

  /** Replaces an ISIN by the ticker symbol the quote search suggests. */
  function ResolveIsinToTicker(symbol: string, search: Search): (r: string)
    ensures !LooksLikeIsin(symbol) || search.SearchFailed? ==> r == symbol
    ensures LooksLikeIsin(symbol) && search.SearchOk? ==>
              var qs := search.quotes;
              && (forall i :: (0 <= i < |qs| && IsListedEquity(qs[i])
                                && forall j :: 0 <= j < i ==> !IsListedEquity(qs[j])) ==> r == qs[i].symbol.value)
              && ((forall i :: 0 <= i < |qs| ==> !IsListedEquity(qs[i])) ==>
                    r == if |qs| > 0 && HasSymbol(qs[0]) then qs[0].symbol.value else symbol)
  {
    if !LooksLikeIsin(symbol) then symbol
    else match search
      case SearchFailed => symbol
      case SearchOk(quotes) =>
        match FirstEquity(quotes)
        case Some(i) => quotes[i].symbol.value
        case None =>
          if |quotes| > 0 && HasSymbol(quotes[0]) then quotes[0].symbol.value else symbol
  }

  // ---------------------------------------------------------------------------
  // Row lookup in a financial statement
  // ---------------------------------------------------------------------------

  /** A statement row: its label and the cell of the latest column (None for NaN). */
  datatype Row = Row(name: string, latest: Option<real>)

  /** A statement that is missing or has no columns, or its rows in index order. */
  datatype Statement = NoStatement | Statement(rows: seq<Row>)

  /** Row labels and requested names are compared stripped and lower-cased. */
  function Normalize(name: string): string {
    ToLower(Trim(name))
  }

  /**
   * The dictionary from label to cell, built in row order, so that of several
   * rows with the same label the last one is kept.
   */
  function IndexByName(rows: seq<Row>): map<string, Option<real>> {
    if rows == [] then map[]
    else IndexByName(rows[..|rows| - 1])[rows[|rows| - 1].name := rows[|rows| - 1].latest]
  }

  /** Every row's label is a key of the dictionary. */
  lemma {:induction false} IndexByNameHasEveryRow(rows: seq<Row>)
    ensures forall i :: 0 <= i < |rows| ==> rows[i].name in IndexByName(rows)
  {
    if rows != [] {
      var prefix := rows[..|rows| - 1];
      IndexByNameHasEveryRow(prefix);
      assert forall i :: 0 <= i < |prefix| ==> prefix[i] == rows[i];
    }
  }

  /** Every key of the dictionary is some row's label. */
  lemma {:induction false} IndexByNameOnlyRows(rows: seq<Row>)
    ensures forall k :: k in IndexByName(rows) ==> exists i :: 0 <= i < |rows| && rows[i].name == k
  {
    if rows != [] {
      var prefix := rows[..|rows| - 1];
      IndexByNameOnlyRows(prefix);
      assert forall i :: 0 <= i < |prefix| ==> prefix[i] == rows[i];
    }
  }

  /** No row after position i has the same label as row i. */
  ghost predicate LastWithName(rows: seq<Row>, i: int)
    requires 0 <= i < |rows|
  {
    forall j :: i < j < |rows| ==> rows[j].name != rows[i].name
  }

  /** Of several rows with one label, the dictionary keeps the last one's cell. */
  lemma {:induction false} IndexByNameLastWins(rows: seq<Row>, i: nat)
    requires i < |rows| && LastWithName(rows, i)
    ensures rows[i].name in IndexByName(rows) && IndexByName(rows)[rows[i].name] == rows[i].latest
  {
    IndexByNameHasEveryRow(rows);
    if i < |rows| - 1 {
      var prefix := rows[..|rows| - 1];
      assert prefix[i] == rows[i];
      assert rows[|rows| - 1].name != rows[i].name;
      IndexByNameLastWins(prefix, i);
    }
  }

  /** The keys are tried in order; the first one present decides. */
  function LookUp(index: map<string, Option<real>>, keys: seq<string>): (r: Option<real>)
    ensures (forall i :: 0 <= i < |keys| ==> keys[i] !in index) ==> r == None
    ensures forall i :: (0 <= i < |keys| && keys[i] in index
                         && forall j :: 0 <= j < i ==> keys[j] !in index) ==>
              r == index[keys[i]]
  {
    if keys == [] then None
    else if keys[0] in index then index[keys[0]]
    else
      var r := LookUp(index, keys[1..]);
      assert forall i :: 1 <= i < |keys| ==> keys[i] == keys[1..][i - 1];
      r
  }

  /** The rows with their labels normalized. */
  function NormalizeRows(rows: seq<Row>): (r: seq<Row>)
    ensures |r| == |rows|
  {
    seq(|rows|, i requires 0 <= i < |rows| => Row(Normalize(rows[i].name), rows[i].latest))
  }

  /** The requested names normalized. */
  function NormalizeNames(names: seq<string>): (r: seq<string>)
    ensures |r| == |names|
  {
    seq(|names|, i requires 0 <= i < |names| => Normalize(names[i]))
  }

  /**
   * The latest-column value of the row for the first requested name that
   * matches a row; None when no name matches or that cell is NaN.
   */
  function FindRowValue(stmt: Statement, names: seq<string>): (r: Option<real>)
    ensures stmt.NoStatement? || names == [] ==> r == None
  {
    match stmt
    case NoStatement => None
    case Statement(rows) => LookUp(IndexByName(NormalizeRows(rows)), NormalizeNames(names))
  }

  /** No row after position k has the same normalized label as row k. */
  ghost predicate LastWithLabel(rows: seq<Row>, k: int)
    requires 0 <= k < |rows|
  {
    forall j :: k < j < |rows| ==> Normalize(rows[j].name) != Normalize(rows[k].name)
  }

  /** No name before position i matches any row. */
  ghost predicate NoEarlierMatch(rows: seq<Row>, names: seq<string>, i: int)
    requires 0 <= i <= |names|
  {
    forall j, k :: 0 <= j < i && 0 <= k < |rows| ==> Normalize(names[j]) != Normalize(rows[k].name)
  }

  /** When no requested name matches a row, the lookup gives None. */
  lemma FindRowValueNoMatch(rows: seq<Row>, names: seq<string>)
    requires NoEarlierMatch(rows, names, |names|)
    ensures FindRowValue(Statement(rows), names) == None
  {
    var normalized := NormalizeRows(rows);
    var keys := NormalizeNames(names);
    IndexByNameOnlyRows(normalized);
    assert forall j, k :: 0 <= j < |names| && 0 <= k < |normalized| ==> normalized[k].name != keys[j];
  }

  /**
   * The first requested name that matches any row decides: the result is the
   * cell of the last row with that normalized label, even when it is NaN
   * (None), and later names are not tried.
   */
  lemma FindRowValueFirstMatch(rows: seq<Row>, names: seq<string>, i: nat, k: nat)
    requires i < |names| && k < |rows|
    requires Normalize(names[i]) == Normalize(rows[k].name)
    requires LastWithLabel(rows, k) && NoEarlierMatch(rows, names, i)
    ensures FindRowValue(Statement(rows), names) == rows[k].latest
  {
    var normalized := NormalizeRows(rows);
    var keys := NormalizeNames(names);
    var index := IndexByName(normalized);
    assert LastWithName(normalized, k);
    IndexByNameLastWins(normalized, k);
    IndexByNameOnlyRows(normalized);
    assert forall j, m :: 0 <= j < i && 0 <= m < |normalized| ==> normalized[m].name != keys[j];
    assert keys[i] == normalized[k].name;
  }

  /** Row lookup is insensitive to case and surrounding whitespace of the requested names. */
  lemma FindRowValueIgnoresCaseAndSpace(stmt: Statement, names: seq<string>, names': seq<string>)
    requires |names| == |names'|
    requires forall i :: 0 <= i < |names| ==> Normalize(names[i]) == Normalize(names'[i])
    ensures FindRowValue(stmt, names) == FindRowValue(stmt, names')
  {
    assert NormalizeNames(names) == NormalizeNames(names');
  }

  // ---------------------------------------------------------------------------
  // Per-figure status
  // ---------------------------------------------------------------------------

  datatype Status = Gut | Kritisch | Beobachten

  /** The notes the analysis attaches: data missing, below the limit, above the limit. */
  datatype Note = DatenFehlen | UnterGrenzwert | UeberGrenzwert

  datatype MetricResult = MetricResult(value: Option<real>, status: Status, threshold: string, note: Option<Note>)

  /** v lies within the given bounds, both inclusive; an absent bound never fails. */
  predicate WithinBounds(v: real, goodMin: Option<real>, goodMax: Option<real>) {
    (goodMin.None? || goodMin.value <= v) && (goodMax.None? || v <= goodMax.value)
  }

  /** Classifies one figure against its optional bounds. */
  function MetricStatus(value: Option<real>, goodMin: Option<real>, goodMax: Option<real>, threshold: string): (m: MetricResult)
    ensures m.value == value && m.threshold == threshold
    ensures value.None? ==> m.status == Beobachten && m.note == Some(DatenFehlen)
    ensures m.status == Gut <==> value.Some? && WithinBounds(value.value, goodMin, goodMax)
    ensures m.status == Kritisch <==> value.Some? && !WithinBounds(value.value, goodMin, goodMax)
    ensures m.status == Gut ==> m.note == None
    ensures m.note == Some(UnterGrenzwert) <==>
              value.Some? && goodMin.Some? && value.value < goodMin.value
    ensures m.note == Some(UeberGrenzwert) <==>
              value.Some? && WithinBounds(value.value, goodMin, None) && goodMax.Some? && value.value > goodMax.value
  {
    if value.None? then MetricResult(value, Beobachten, threshold, Some(DatenFehlen))
    else if goodMin.Some? && value.value < goodMin.value then MetricResult(value, Kritisch, threshold, Some(UnterGrenzwert))
    else if goodMax.Some? && value.value > goodMax.value then MetricResult(value, Kritisch, threshold, Some(UeberGrenzwert))
    else MetricResult(value, Gut, threshold, None)
  }

  // ---------------------------------------------------------------------------
  // Overall rating
  // ---------------------------------------------------------------------------

  /** Number of critical figures. */
  function CountCritical(ms: seq<MetricResult>): (n: nat)
    ensures n <= |ms|
    ensures n == 0 <==> forall i :: 0 <= i < |ms| ==> ms[i].status != Kritisch
    ensures n >= 2 <==> exists i, j :: 0 <= i < j < |ms| && ms[i].status == Kritisch && ms[j].status == Kritisch
  {
    if ms == [] then 0
    else
      var rest := ms[1..];
      var n := (if ms[0].status == Kritisch then 1 else 0) + CountCritical(rest);
      assert forall i :: 1 <= i < |ms| ==> ms[i] == rest[i - 1];
      assert n >= 2 ==> exists i, j :: 0 <= i < j < |ms| && ms[i].status == Kritisch && ms[j].status == Kritisch by {
        if n >= 2 {
          if ms[0].status == Kritisch {
            var k :| 0 <= k < |rest| && rest[k].status == Kritisch;
            assert ms[k + 1].status == Kritisch;
          } else {
            var i, j :| 0 <= i < j < |rest| && rest[i].status == Kritisch && rest[j].status == Kritisch;
            assert ms[i + 1].status == Kritisch && ms[j + 1].status == Kritisch;
          }
        }
      }
      assert (exists i, j :: 0 <= i < j < |ms| && ms[i].status == Kritisch && ms[j].status == Kritisch) ==> n >= 2 by {
        if exists i, j :: 0 <= i < j < |ms| && ms[i].status == Kritisch && ms[j].status == Kritisch {
          var i, j :| 0 <= i < j < |ms| && ms[i].status == Kritisch && ms[j].status == Kritisch;
          if i == 0 {
            assert rest[j - 1].status == Kritisch;
          } else {
            assert rest[i - 1].status == Kritisch && rest[j - 1].status == Kritisch;
          }
        }
      }
      n
  }

  /** Number of figures whose data is missing. */
  function CountMissing(ms: seq<MetricResult>): (n: nat)
    ensures n <= |ms|
    ensures n == 0 <==> forall i :: 0 <= i < |ms| ==> ms[i].note != Some(DatenFehlen)
  {
    if ms == [] then 0
    else
      var rest := ms[1..];
      assert forall i :: 1 <= i < |ms| ==> ms[i] == rest[i - 1];
      (if ms[0].note == Some(DatenFehlen) then 1 else 0) + CountMissing(rest)
  }

  /**
   * Two or more critical figures make the stock critical; none critical and
   * none missing make it good; anything else is to be watched.
   */
  function OverallRating(ms: seq<MetricResult>): (r: Status)
    ensures r == Kritisch <==>
              exists i, j :: 0 <= i < j < |ms| && ms[i].status == Kritisch && ms[j].status == Kritisch
    ensures r == Gut <==>
              forall i :: 0 <= i < |ms| ==> ms[i].status != Kritisch && ms[i].note != Some(DatenFehlen)
  {
    var critical := CountCritical(ms);
    var missing := CountMissing(ms);
    if critical >= 2 then Kritisch
    else if critical == 1 || missing > 0 then Beobachten
    else Gut
  }

  // ---------------------------------------------------------------------------
  // Derived figures
  // ---------------------------------------------------------------------------

  /** The fields of the company info dictionary the analysis reads; None when a key is absent. */
  datatype Info = Info(
    dividendRate: Option<real>,
    sharesOutstanding: Option<real>,
    netDebt: Option<real>,
    ebitda: Option<real>,
    returnOnCapitalEmployed: Option<real>,
    returnOnEquity: Option<real>)

  const FREE_CASH_FLOW_ROWS: seq<string> := ["Free Cash Flow"]
  const OPERATING_CASH_FLOW_ROWS: seq<string> := ["Operating Cash Flow", "Total Cash From Operating Activities"]
  const CAPEX_ROWS: seq<string> := ["Capital Expenditure", "Capital Expenditures"]
  const DIVIDENDS_PAID_ROWS: seq<string> := ["Dividends Paid", "Cash Dividends Paid"]
  const OPERATING_INCOME_ROWS: seq<string> := ["Operating Income", "Operating Income or Loss"]
  const INTEREST_EXPENSE_ROWS: seq<string> := ["Interest Expense", "Interest Expense Non Operating"]

  function Abs(x: real): real {
    if x < 0.0 then -x else x
  }

  /** Free cash flow: the explicit row, else operating cash flow plus (negative) capital expenditure. */
  function CalculateFcf(cashflow: Statement): (r: Option<real>)
    ensures FindRowValue(cashflow, FREE_CASH_FLOW_ROWS).Some? ==> r == FindRowValue(cashflow, FREE_CASH_FLOW_ROWS)
    ensures FindRowValue(cashflow, FREE_CASH_FLOW_ROWS).None? ==>
              var ocf := FindRowValue(cashflow, OPERATING_CASH_FLOW_ROWS);
              var capex := FindRowValue(cashflow, CAPEX_ROWS);
              && (r.Some? <==> ocf.Some? && capex.Some?)
              && (r.Some? ==> r.value == ocf.value + capex.value)
  {
    var freeCashFlow := FindRowValue(cashflow, FREE_CASH_FLOW_ROWS);
    if freeCashFlow.Some? then freeCashFlow
    else
      var operatingCf := FindRowValue(cashflow, OPERATING_CASH_FLOW_ROWS);
      var capex := FindRowValue(cashflow, CAPEX_ROWS);
      if operatingCf.None? || capex.None? then None
      else Some(operatingCf.value + capex.value)
  }

  /** Python truthiness of an optional number: present and non-zero. */
  predicate Truthy(x: Option<real>) {
    x.Some? && x.value != 0.0
  }

  /**
   * Dividends paid: the magnitude of the cash-flow row, else dividend rate
   * times shares outstanding when both are present and non-zero.
   */
  function CalculateDividendsPaid(info: Info, cashflow: Statement): (r: Option<real>)
    ensures var row := FindRowValue(cashflow, DIVIDENDS_PAID_ROWS);
            row.Some? ==> r.Some? && r.value >= 0.0 && (r.value == row.value || r.value == -row.value)
    ensures FindRowValue(cashflow, DIVIDENDS_PAID_ROWS).None? ==>
              && (r.Some? <==> Truthy(info.dividendRate) && Truthy(info.sharesOutstanding))
              && (r.Some? ==> r.value == info.dividendRate.value * info.sharesOutstanding.value)
  {
    var dividendsPaid := FindRowValue(cashflow, DIVIDENDS_PAID_ROWS);
    if dividendsPaid.Some? then Some(Abs(dividendsPaid.value))
    else if Truthy(info.dividendRate) && Truthy(info.sharesOutstanding) then
      Some(info.dividendRate.value * info.sharesOutstanding.value)
    else None
  }

  /** Operating income over the magnitude of the interest expense, both read from the income statement. */
  function CalculateInterestCoverage(incomeStmt: Statement): (r: Option<real>)
    ensures var income := FindRowValue(incomeStmt, OPERATING_INCOME_ROWS);
            var expense := FindRowValue(incomeStmt, INTEREST_EXPENSE_ROWS);
            && (r.Some? <==> income.Some? && expense.Some? && expense.value != 0.0)
            && (r.Some? ==> r.value == income.value / Abs(expense.value))
  {
    InterestCoverage(FindRowValue(incomeStmt, OPERATING_INCOME_ROWS), FindRowValue(incomeStmt, INTEREST_EXPENSE_ROWS))
  }

  /**
   * The guarded division behind the interest coverage: None when a figure is
   * missing or the interest expense is zero; otherwise a ratio with the sign of
   * the operating income, whatever the sign of the expense.
   */
  function InterestCoverage(operatingIncome: Option<real>, interestExpense: Option<real>): (r: Option<real>)
    ensures r.Some? <==> operatingIncome.Some? && interestExpense.Some? && interestExpense.value != 0.0
    ensures r.Some? ==> r.value * Abs(interestExpense.value) == operatingIncome.value
    ensures r.Some? ==> (r.value > 0.0 <==> operatingIncome.value > 0.0) && (r.value < 0.0 <==> operatingIncome.value < 0.0)
  {
    if operatingIncome.None? || interestExpense.None? then None
    else if interestExpense.value == 0.0 then None
    else
      SignOfQuotient(operatingIncome.value, Abs(interestExpense.value));
      Some(operatingIncome.value / Abs(interestExpense.value))
  }

  /** Dividing by a positive number keeps the sign. */
  lemma SignOfQuotient(x: real, y: real)
    requires y > 0.0
    ensures (x / y > 0.0 <==> x > 0.0) && (x / y < 0.0 <==> x < 0.0)
  {
    if x > 0.0 {
      assert x / y > 0.0;
    } else if x < 0.0 {
      assert (-x) / y > 0.0;
      assert x / y == -((-x) / y);
    }
  }

  /** Dividends paid over free cash flow, when free cash flow is non-zero. */
  function FcfPayout(freeCashFlow: Option<real>, dividendsPaid: Option<real>): (r: Option<real>)
    ensures r.Some? <==> Truthy(freeCashFlow) && dividendsPaid.Some?
    ensures r.Some? ==> r.value * freeCashFlow.value == dividendsPaid.value
  {
    if Truthy(freeCashFlow) && dividendsPaid.Some? then Some(dividendsPaid.value / freeCashFlow.value)
    else None
  }

  /** Net debt over EBITDA, when EBITDA is present and non-zero. */
  function DebtToEbitda(netDebt: Option<real>, ebitda: Option<real>): (r: Option<real>)
    ensures r.Some? <==> netDebt.Some? && Truthy(ebitda)
    ensures r.Some? ==> r.value * ebitda.value == netDebt.value
  {
    if netDebt.Some? && Truthy(ebitda) then Some(netDebt.value / ebitda.value) else None
  }

  /** Which return figure the profitability KPI was taken from. */
  datatype Basis = Roic | Roe

  /** Return on capital employed, falling back to return on equity. */
  function Profitability(info: Info): (r: (Option<real>, Basis))
    ensures info.returnOnCapitalEmployed.Some? ==> r == (info.returnOnCapitalEmployed, Roic)
    ensures info.returnOnCapitalEmployed.None? && info.returnOnEquity.Some? ==> r == (info.returnOnEquity, Roe)
    ensures info.returnOnCapitalEmployed.None? && info.returnOnEquity.None? ==> r == (None, Roic)
  {
    if info.returnOnCapitalEmployed.Some? then (info.returnOnCapitalEmployed, Roic)
    else if info.returnOnEquity.Some? then (info.returnOnEquity, Roe)
    else (None, Roic)
  }

  // ---------------------------------------------------------------------------
  // The analysis
  // ---------------------------------------------------------------------------

  const FCF_PAYOUT_MAX: real := 0.7
  const DEBT_TO_EBITDA_MAX: real := 2.5
  const PROFITABILITY_MIN: real := 0.12
  const INTEREST_COVERAGE_MIN: real := 5.0

  datatype Analysis = Analysis(
    ticker: string,
    profitabilityBasis: Basis,
    rating: Status,
    fcfPayout: MetricResult,
    debtToEbitda: MetricResult,
    profitability: MetricResult,
    interestCoverage: MetricResult)

  function Metrics(a: Analysis): seq<MetricResult> {
    [a.fcfPayout, a.debtToEbitda, a.profitability, a.interestCoverage]
  }

  /** Whether each of the four figures is present and beyond its threshold, in the order of Metrics. */
  ghost function Breaches(fcfPayout: Option<real>, debtToEbitda: Option<real>, profitability: Option<real>, interestCoverage: Option<real>): seq<bool> {
    [ fcfPayout.Some? && fcfPayout.value > FCF_PAYOUT_MAX,
      debtToEbitda.Some? && debtToEbitda.value > DEBT_TO_EBITDA_MAX,
      profitability.Some? && profitability.value < PROFITABILITY_MIN,
      interestCoverage.Some? && interestCoverage.value < INTEREST_COVERAGE_MIN ]
  }

  /** All four figures are present and within their thresholds, bounds included. */
  ghost predicate AllWithinThresholds(fcfPayout: Option<real>, debtToEbitda: Option<real>,
                                      profitability: Option<real>, interestCoverage: Option<real>) {
    && fcfPayout.Some? && fcfPayout.value <= FCF_PAYOUT_MAX
    && debtToEbitda.Some? && debtToEbitda.value <= DEBT_TO_EBITDA_MAX
    && profitability.Some? && profitability.value >= PROFITABILITY_MIN
    && interestCoverage.Some? && interestCoverage.value >= INTEREST_COVERAGE_MIN
  }

  /** Classifies the four derived figures against their thresholds, in the order of Metrics. */
  function Assess(fcfPayout: Option<real>, debtToEbitda: Option<real>,
                  profitability: Option<real>, interestCoverage: Option<real>): (ms: seq<MetricResult>)
    ensures |ms| == 4
    ensures ms[0].value == fcfPayout && ms[1].value == debtToEbitda
    ensures ms[2].value == profitability && ms[3].value == interestCoverage
  {
    [ MetricStatus(fcfPayout, None, Some(FCF_PAYOUT_MAX), "< 70%"),
      MetricStatus(debtToEbitda, None, Some(DEBT_TO_EBITDA_MAX), "< 2,5"),
      MetricStatus(profitability, Some(PROFITABILITY_MIN), None, "> 12%"),
      MetricStatus(interestCoverage, Some(INTEREST_COVERAGE_MIN), None, "> 5") ]
  }

  /** Classifies the four derived figures and rates the stock by them. */
  function Classify(ticker: string, fcfPayout: Option<real>, debtToEbitda: Option<real>,
                    profitability: Option<real>, basis: Basis, interestCoverage: Option<real>): (a: Analysis)
    ensures a.ticker == ticker && a.profitabilityBasis == basis
    ensures a.fcfPayout.value == fcfPayout && a.debtToEbitda.value == debtToEbitda
    ensures a.profitability.value == profitability && a.interestCoverage.value == interestCoverage
    ensures Metrics(a) == Assess(fcfPayout, debtToEbitda, profitability, interestCoverage)
    ensures a.rating == OverallRating(Metrics(a))
  {
    var ms := Assess(fcfPayout, debtToEbitda, profitability, interestCoverage);
    Analysis(ticker, basis, OverallRating(ms), ms[0], ms[1], ms[2], ms[3])
  }

  /** A stock is rated good exactly when all four figures are present and within their thresholds. */
  lemma GoodIffAllWithinThresholds(ticker: string, fcfPayout: Option<real>, debtToEbitda: Option<real>,
                                   profitability: Option<real>, basis: Basis, interestCoverage: Option<real>)
    ensures Classify(ticker, fcfPayout, debtToEbitda, profitability, basis, interestCoverage).rating == Gut <==>
              AllWithinThresholds(fcfPayout, debtToEbitda, profitability, interestCoverage)
  {
    var ms := Assess(fcfPayout, debtToEbitda, profitability, interestCoverage);
    AssessedGood(fcfPayout, debtToEbitda, profitability, interestCoverage);
    assert (forall i :: 0 <= i < 4 ==> ms[i].status == Gut)
           <==> ms[0].status == Gut && ms[1].status == Gut && ms[2].status == Gut && ms[3].status == Gut;
  }

  /** Each classified figure is good exactly when it is present and within its threshold, and then neither critical nor missing. */
  lemma AssessedGood(fcfPayout: Option<real>, debtToEbitda: Option<real>,
                     profitability: Option<real>, interestCoverage: Option<real>)
    ensures var ms := Assess(fcfPayout, debtToEbitda, profitability, interestCoverage);
            && (forall i :: 0 <= i < 4 ==> (ms[i].status == Gut <==> ms[i].status != Kritisch && ms[i].note != Some(DatenFehlen)))
            && (ms[0].status == Gut <==> fcfPayout.Some? && fcfPayout.value <= FCF_PAYOUT_MAX)
            && (ms[1].status == Gut <==> debtToEbitda.Some? && debtToEbitda.value <= DEBT_TO_EBITDA_MAX)
            && (ms[2].status == Gut <==> profitability.Some? && profitability.value >= PROFITABILITY_MIN)
            && (ms[3].status == Gut <==> interestCoverage.Some? && interestCoverage.value >= INTEREST_COVERAGE_MIN)
  {
  }

  /** Each classified figure is critical exactly when it is present and breaches its threshold. */
  lemma AssessedCritical(fcfPayout: Option<real>, debtToEbitda: Option<real>,
                         profitability: Option<real>, interestCoverage: Option<real>)
    ensures var ms := Assess(fcfPayout, debtToEbitda, profitability, interestCoverage);
            var b := Breaches(fcfPayout, debtToEbitda, profitability, interestCoverage);
            |b| == 4 && forall i :: 0 <= i < 4 ==> (ms[i].status == Kritisch <==> b[i])
  {
  }

  /** A stock is rated critical exactly when at least two figures are present and breach their thresholds. */
  lemma CriticalIffTwoBreaches(ticker: string, fcfPayout: Option<real>, debtToEbitda: Option<real>,
                               profitability: Option<real>, basis: Basis, interestCoverage: Option<real>)
    ensures var b := Breaches(fcfPayout, debtToEbitda, profitability, interestCoverage);
            (Classify(ticker, fcfPayout, debtToEbitda, profitability, basis, interestCoverage).rating == Kritisch
             <==> exists i, j :: 0 <= i < j < 4 && b[i] && b[j])
  {
    var a := Classify(ticker, fcfPayout, debtToEbitda, profitability, basis, interestCoverage);
    var ms := Metrics(a);
    var b := Breaches(fcfPayout, debtToEbitda, profitability, interestCoverage);
    AssessedCritical(fcfPayout, debtToEbitda, profitability, interestCoverage);
    if a.rating == Kritisch {
      var i, j :| 0 <= i < j < |ms| && ms[i].status == Kritisch && ms[j].status == Kritisch;
      assert b[i] && b[j];
    }
    if exists i, j :: 0 <= i < j < 4 && b[i] && b[j] {
      var i, j :| 0 <= i < j < 4 && b[i] && b[j];
      assert ms[i].status == Kritisch && ms[j].status == Kritisch;
    }
  }

  /**
   * A stock is to be watched exactly when it is rated neither good nor
   * critical: fewer than two figures breach their thresholds, and not all four
   * are present and within them.
   */
  lemma WatchedIffNeither(ticker: string, fcfPayout: Option<real>, debtToEbitda: Option<real>,
                                             profitability: Option<real>, basis: Basis, interestCoverage: Option<real>)
    ensures var b := Breaches(fcfPayout, debtToEbitda, profitability, interestCoverage);
            (Classify(ticker, fcfPayout, debtToEbitda, profitability, basis, interestCoverage).rating == Beobachten
             <==> && !(exists i, j :: 0 <= i < j < 4 && b[i] && b[j])
                  && !AllWithinThresholds(fcfPayout, debtToEbitda, profitability, interestCoverage))
  {
    GoodIffAllWithinThresholds(ticker, fcfPayout, debtToEbitda, profitability, basis, interestCoverage);
    CriticalIffTwoBreaches(ticker, fcfPayout, debtToEbitda, profitability, basis, interestCoverage);
  }

  /** The four key figures of a stock derived from its info and statements, classified and rated. */
  function AnalyzeStock(ticker: string, info: Info, cashflow: Statement, incomeStmt: Statement): (a: Analysis)
    ensures a.ticker == ticker
    ensures a.fcfPayout.value == FcfPayout(CalculateFcf(cashflow), CalculateDividendsPaid(info, cashflow))
    ensures a.debtToEbitda.value == DebtToEbitda(info.netDebt, info.ebitda)
    ensures (a.profitability.value, a.profitabilityBasis) == Profitability(info)
    ensures a.interestCoverage.value == CalculateInterestCoverage(incomeStmt)
    ensures a == Classify(ticker, a.fcfPayout.value, a.debtToEbitda.value, a.profitability.value,
                          a.profitabilityBasis, a.interestCoverage.value)
  {
    var (profitability, basis) := Profitability(info);
    Classify(ticker, FcfPayout(CalculateFcf(cashflow), CalculateDividendsPaid(info, cashflow)),
             DebtToEbitda(info.netDebt, info.ebitda), profitability, basis,
             CalculateInterestCoverage(incomeStmt))
  }

  /**
   * The rating of an analysed stock: good exactly when all four derived
   * figures are present and within their thresholds, critical exactly when at
   * least two breach them, and to be watched otherwise.
   */
  lemma AnalyzeStockRating(ticker: string, info: Info, cashflow: Statement, incomeStmt: Statement)
    ensures var a := AnalyzeStock(ticker, info, cashflow, incomeStmt);
            var b := Breaches(a.fcfPayout.value, a.debtToEbitda.value, a.profitability.value, a.interestCoverage.value);
            && (a.rating == Gut <==>
                  AllWithinThresholds(a.fcfPayout.value, a.debtToEbitda.value, a.profitability.value, a.interestCoverage.value))
            && (a.rating == Kritisch <==> exists i, j :: 0 <= i < j < 4 && b[i] && b[j])
            && (a.rating == Beobachten <==>
                  && !(exists i, j :: 0 <= i < j < 4 && b[i] && b[j])
                  && !AllWithinThresholds(a.fcfPayout.value, a.debtToEbitda.value, a.profitability.value, a.interestCoverage.value))
  {
    var a := AnalyzeStock(ticker, info, cashflow, incomeStmt);
    WatchedIffNeither(ticker, a.fcfPayout.value, a.debtToEbitda.value, a.profitability.value,
                      a.profitabilityBasis, a.interestCoverage.value);
    GoodIffAllWithinThresholds(ticker, a.fcfPayout.value, a.debtToEbitda.value, a.profitability.value,
                               a.profitabilityBasis, a.interestCoverage.value);
    CriticalIffTwoBreaches(ticker, a.fcfPayout.value, a.debtToEbitda.value, a.profitability.value,
                           a.profitabilityBasis, a.interestCoverage.value);
  }
}
