# Dividend portfolio tool: a verified model of its decision logic

The portfolio tool rates dividend stocks by four key figures and summarises an
uploaded portfolio by role. This project models the three pieces of decision
logic behind that. It states their behaviour as contracts and proves the
properties those pieces promise.

- **Key-figure analysis** (`app/stock_analysis.py`, module `StockAnalysis` in
  `stock_analysis.dfy`). It covers:
  - ISIN detection, and the quote the ISIN search selects;
  - the ordered, case- and whitespace-insensitive row lookup in a financial
    statement;
  - the derived figures: free cash flow, dividends paid, interest coverage,
    FCF payout, net debt / EBITDA, and profitability as ROIC falling back to
    ROE;
  - the classification of each figure as `Gut`, `Kritisch` or `Beobachten`;
  - the overall rating.
- **Metrics endpoint** (`api/metrics.js`, module `MetricsEndpoint` in
  `metrics_endpoint.dfy`). It covers:
  - the whole-day age of a time stamp;
  - numeric coercion of provider fields, and the payload built from them;
  - the request handler. This is a class `MetricsService` holding the
    per-symbol cache of fundamentals as a `map`. It checks the method, then
    the symbol. It refetches fundamentals once they are seven whole days old.
    It writes the cache before fetching the daily quote.
- **Portfolio upload** (`app/app.js`, module `PortfolioCsv` in
  `portfolio_csv.dfy`). It covers:
  - the split-based CSV parser used when no CSV library is loaded;
  - the summary's validation: no data, or missing required columns;
  - the per-role market-value totals. The method `TotalsByRole` computes them
    with a loop over the records that updates a map of totals, as the source's
    `reduce` does.
  - each role's weight.

Two shared modules complete the project:

- `text.dfy` (module `Text`) models the string operations the sources use:
  - trimming (Python's `strip`, JavaScript's `trim`);
  - ASCII upper- and lower-casing;
  - splitting on a single character, proved to round-trip with joining.
- `wrappers.dfy` (module `Wrappers`) holds `Option` and `Result`.

What the model takes as inputs instead of performing them:

- Provider calls (the Yahoo search, `quoteSummary`, `quote`) are inputs: a
  `Search` value, or an `Outcome` that either returned a value or threw.
- The clock is an input, `now`, in integer milliseconds since the epoch.
- A pandas statement is a sequence of rows. Each row is its label and its cell
  in the latest column, where `None` stands for NaN.
- JavaScript's `Number()` of a field is given with the field (`JsValue`).
- In the CSV summary, turning a market-value string into a number is a
  parameter `parse`. It returns `None` where `Number()` would give NaN.

## Model

| member | source | states |
|---|---|---|
| StockAnalysis.IsAlpha | app/stock_analysis.py:47 | true iff the string is non-empty and all letters |
| StockAnalysis.IsAlnum | app/stock_analysis.py:47 | true iff the string is non-empty and all letters or digits |
| StockAnalysis.LooksLikeIsin | app/stock_analysis.py:44-47 | true iff: the length is 12, the first two characters are letters, and all twelve are letters or digits |
| StockAnalysis.FirstEquity | app/stock_analysis.py:65-67 | the position of the first quote of type EQUITY with a non-empty symbol, with no such quote before it; None iff there is none |
| StockAnalysis.ResolveIsinToTicker | app/stock_analysis.py:50-70 | a non-ISIN, or a failed search, returns the input unchanged. Otherwise the result is the first EQUITY quote's symbol; failing that, the first quote's symbol if non-empty; failing that, the input |
| StockAnalysis.IndexByNameHasEveryRow | app/stock_analysis.py:124 | every row label is a key of the label dictionary |
| StockAnalysis.IndexByNameOnlyRows | app/stock_analysis.py:124 | every key of the label dictionary is some row's label |
| StockAnalysis.IndexByNameLastWins | app/stock_analysis.py:124 | of rows sharing a label, the dictionary keeps the last one's cell |
| StockAnalysis.LookUp | app/stock_analysis.py:125-132 | keys are tried in order; the first key present decides the result; no key present gives None |
| StockAnalysis.FindRowValue | app/stock_analysis.py:115-123 | a missing statement, or no requested names, gives None |
| StockAnalysis.FindRowValueNoMatch | app/stock_analysis.py:125-132 | when no normalized name equals a normalized row label, the result is None |
| StockAnalysis.FindRowValueFirstMatch | app/stock_analysis.py:124-131 | the first name that matches any row decides. The result is the cell of the last row with that label, even when the cell is NaN; later names are not tried |
| StockAnalysis.FindRowValueIgnoresCaseAndSpace | app/stock_analysis.py:124-126 | names equal up to case and surrounding whitespace give the same result |
| StockAnalysis.MetricStatus | app/stock_analysis.py:135-148 | no value gives `Beobachten` with note "Daten fehlen". Otherwise `Gut` iff within both bounds, inclusive; absent bounds never fail. Below the minimum gives `Kritisch` "unter Grenzwert", checked first. Above the maximum, and not below the minimum, gives `Kritisch` "über Grenzwert" |
| StockAnalysis.CountCritical | app/stock_analysis.py:272 | the count is 0 iff no figure is critical, and at least 2 iff two distinct figures are critical |
| StockAnalysis.CountMissing | app/stock_analysis.py:273 | the count is 0 iff no figure's data is missing |
| StockAnalysis.OverallRating | app/stock_analysis.py:272-280 | `Kritisch` iff two figures are critical; `Gut` iff no figure is critical or missing |
| StockAnalysis.CalculateFcf | app/stock_analysis.py:151-168 | an explicit free-cash-flow row wins. Otherwise the result is operating cash flow plus capex, present iff both are |
| StockAnalysis.CalculateDividendsPaid | app/stock_analysis.py:171-186 | a dividends row gives its magnitude, which is ≥ 0. Otherwise the result is dividend rate × shares outstanding, present iff both are present and non-zero |
| StockAnalysis.InterestCoverage | app/stock_analysis.py:189-202 | present iff both figures are present and the expense is non-zero. Then ratio × \|expense\| = operating income, and the ratio has the sign of the operating income |
| StockAnalysis.FcfPayout | app/stock_analysis.py:227-229 | present iff free cash flow is present and non-zero and dividends paid is present; then ratio × FCF = dividends |
| StockAnalysis.DebtToEbitda | app/stock_analysis.py:231-235 | present iff net debt is present and EBITDA is present and non-zero; then ratio × EBITDA = net debt |
| StockAnalysis.Profitability | app/stock_analysis.py:237-245 | ROIC with basis "ROIC" when present; else ROE with basis "ROE"; else no value with basis "ROIC" |
| StockAnalysis.Assess | app/stock_analysis.py:249-270 | four classified figures, in the order fcf_payout, debt_to_ebitda, profitability, interest_coverage, carrying their values |
| StockAnalysis.Classify | app/stock_analysis.py:249-280 | the analysis carries the four classified figures, and its rating is the overall rating of those figures |
| StockAnalysis.AssessedGood | app/stock_analysis.py:249-270 | each figure is `Gut` iff present and within its threshold (≤ 0.7, ≤ 2.5, ≥ 0.12, ≥ 5); a `Gut` figure is neither critical nor missing |
| StockAnalysis.AssessedCritical | app/stock_analysis.py:249-270 | each figure is `Kritisch` iff present and beyond its threshold |
| StockAnalysis.GoodIffAllWithinThresholds | app/stock_analysis.py:249-280 | the rating is `Gut` iff all four figures are present and within their thresholds |
| StockAnalysis.CriticalIffTwoBreaches | app/stock_analysis.py:249-276 | the rating is `Kritisch` iff at least two figures are present and beyond their thresholds |
| StockAnalysis.CalculateInterestCoverage | app/stock_analysis.py:189-202 | present iff operating income and interest expense are both found in the income statement and the expense is non-zero; then it is the income over the expense's magnitude |
| StockAnalysis.WatchedIffNeither | app/stock_analysis.py:272-280 | the rating is `Beobachten` iff fewer than two figures breach their thresholds and not all four are present and within them |
| StockAnalysis.AnalyzeStock | app/stock_analysis.py:222-280 | the analysis carries the ticker and each key figure's derivation from the info and the statements; the profitability basis follows the ROIC/ROE fallback; the statuses and the rating are the classification of those figures |
| StockAnalysis.AnalyzeStockRating | app/stock_analysis.py:249-280 | for the analysed figures: `Gut` iff all four are present and within their thresholds; `Kritisch` iff two breach; `Beobachten` iff neither |
| Text.TrimSpec | api/metrics.js:101 | the trimmed string has no whitespace at either end, and is empty iff the input is all whitespace |
| Text.TrimIdempotent | app/stock_analysis.py:124 | trimming twice is trimming once |
| Text.UpperTrimStable | api/metrics.js:101 | a trimmed, upper-cased symbol is left unchanged by trimming and by upper-casing |
| Text.Split | app/app.js:70 | at least one piece; no piece contains the separator; joining the pieces with the separator gives back the input; a string without the separator is its own single piece |
| MetricsEndpoint.DaysBetween | api/metrics.js:6-17 | Infinity iff either date is missing or unparseable. Otherwise n is a natural number with n days ≤ \|end − start\| < n + 1 days |
| MetricsEndpoint.DaysBetweenSymmetric | api/metrics.js:15-16 | the order of the two dates does not matter |
| MetricsEndpoint.SafeNumber | api/metrics.js:19-25 | a number is returned iff the value is neither null nor undefined and its `Number()` is finite, and it is that number |
| MetricsEndpoint.DebtToEbitda | api/metrics.js:54-58 | present iff both coerced figures are present and EBITDA ≠ 0; then ratio × EBITDA = debt |
| MetricsEndpoint.BuildPayload | api/metrics.js:41-90 | symbol, company name, fetch time, source, cache flag and fundamentals time pass through. Every fundamentals figure is dated on the fundamentals' day; the price is dated on the request's day. Dividend yield, FCF payout, interest coverage and price are the safe numbers of their fields, and the currency is the quote's. debtToEbitda is the guarded ratio, and dividend growth is null. The EPS payout takes the summary ratio unless it is null or undefined, else the statistics ratio; ROIC likewise takes the return on investment capital, else the return on assets |
| MetricsEndpoint.CompanyName | api/metrics.js:127-132 | the name is the symbol or one of the four candidate names, which is then non-empty. It is the symbol when no candidate is named, and is non-empty when the symbol is |
| MetricsEndpoint.FirstNamedWins | api/metrics.js:127-132 | candidates are tried in the order fundamentals long name, fundamentals short name, quote long name, quote short name: the first non-empty one is the name |
| MetricsEndpoint.ProviderFailure | api/metrics.js:146-157 | status 502 with a provider error; its details are the error's message when that is non-empty, else "Unbekannter Fehler" |
| MetricsEndpoint.Validate | api/metrics.js:95-106 | a non-GET request gives 405 `method_not_allowed`, whatever the symbol. For GET: 400 `missing_symbol` iff the parameter is missing or all whitespace, and the request is accepted iff it is not; an accepted request's key is the trimmed, upper-cased parameter, which is a valid cache key |
| MetricsEndpoint.NeedsRefreshIffWeekOld | api/metrics.js:110-114 | a refresh is needed iff there is no entry or at least 7 × 86 400 000 ms lie between its fetch and now |
| MetricsEndpoint.FreshnessWindow | api/metrics.js:3 | an entry is reused 6 days 23 hours after its fetch and refreshed 7 days 1 minute after it |
| MetricsEndpoint.MetricsService.constructor | api/metrics.js:4 | the cache starts empty |
| MetricsEndpoint.MetricsService.Handle | api/metrics.js:92-158 | a refused request, or a failed fundamentals fetch (502), leaves the cache unchanged. Otherwise only the symbol's entry is written, before the quote call: the new fundamentals and `now` on refresh, else the old entry. A failed quote fetch gives 502; a successful one gives 200 with the payload, flagged `usedCache = !needsRefresh`. All cache keys stay valid |
| MetricsEndpoint.SecondRequestUsesCache | api/metrics.js:108-145 | on a fresh service, a second request one day after the first is served from the cache with the first fetch time, whatever its own fetch would do |
| PortfolioCsv.ZipRecordKeys | app/app.js:75-78 | a record's keys are exactly the header names |
| PortfolioCsv.ZipRecordAt | app/app.js:75-78 | each header maps to the cell at its last position, or '' when the line is too short |
| PortfolioCsv.Lines | app/app.js:70 | the trimmed text has at least one line, so a header line always exists |
| PortfolioCsv.ParseCsv | app/app.js:70-79 | one record per line after the header line |
| PortfolioCsv.ParseCsvRecord | app/app.js:71-78 | every record has exactly the header names as keys; each value is that line's trimmed cell at the header's position, or '' past the line's end |
| PortfolioCsv.SingleLineHasNoRecords | app/app.js:70-73 | a text that is one line after trimming gives no records |
| PortfolioCsv.MissingFrom | app/app.js:97 | a column is listed iff it is required and absent from the record; the list keeps the required columns' order |
| PortfolioCsv.MissingColumns | app/app.js:6-20 | the same, for the thirteen required columns |
| PortfolioCsv.RoleOf | app/app.js:104 | a present, non-empty `Rolle` is the role; a missing or empty one becomes `Unbekannt`; the role is never empty |
| PortfolioCsv.ReplaceFirstSpec | app/app.js:105 | only the first ',' of the market value becomes '.' |
| PortfolioCsv.ReplaceFirstAbsent | app/app.js:105 | a text without ',' is left unchanged |
| PortfolioCsv.ReplaceFirstAt | app/app.js:105 | the first ',' becomes '.' and all text after it is kept, later commas included |
| PortfolioCsv.MarketValueSpec | app/app.js:105 | a missing `Marktwert` is parsed as the text "undefined"; a value without a comma is parsed as it is; a value that does not parse counts as 0 |
| PortfolioCsv.MarketValueDecimalComma | app/app.js:105 | a value with a decimal comma is parsed with that comma read as a decimal point |
| PortfolioCsv.FirstOccurrenceRoles | app/app.js:103-108 | the first-occurrence order lists every role that occurs, and each only once |
| PortfolioCsv.RoleTotalAbsent | app/app.js:103-108 | a role no record has totals 0 |
| PortfolioCsv.TallySeen | app/app.js:106 | adding a record of a known role to its total keeps the tally correct for the longer prefix |
| PortfolioCsv.TallyNew | app/app.js:106 | adding a record of a new role keeps the tally correct for the longer prefix, with the role appended in first-occurrence order |
| PortfolioCsv.AddRecord | app/app.js:103-107 | the reducer step: after adding the next record, the tally is correct for the longer prefix, roles still in first-occurrence order |
| PortfolioCsv.TotalsByRole | app/app.js:103-108 | exactly the roles that occur get a total, each the sum of its records' market values; roles are distinct, in first-occurrence order; the totals sum to the sum of all market values |
| PortfolioCsv.WeightSpec | app/app.js:112-113 | weight 0 for a zero total; otherwise weight × total = role total × 100, and a role total between 0 and the total gives a weight between 0 and 100 |
| PortfolioCsv.Rows | app/app.js:112-119 | one row per role, in order, with its total and its weight |
| PortfolioCsv.RowMarketValues | app/app.js:110-119 | the rows' market values add up to the sum of the totals |
| PortfolioCsv.RowWeights | app/app.js:112-119 | the rows' weights add up to the sum of the totals over the total, times 100 |
| PortfolioCsv.WeightsSumToHundred | app/app.js:110-119 | with a non-zero total, the weights add up to 100 |
| PortfolioCsv.RowsCoverRoles | app/app.js:112-119 | one row for each role that occurs and for no other, in first-occurrence order, each carrying its role's total and weight |
| PortfolioCsv.RowsFormRoleTable | app/app.js:103-119 | the rows built from the per-role totals form the role table of the records |
| PortfolioCsv.RenderSummary | app/app.js:86-119 | no records gives "no data" first. Missing required columns give exactly those, in order, and no table. Otherwise the table has one row per role, in the order in which the roles first occur, and: each row holds the role's total and its share of the sum of all market values; the totals add up to that sum; the weights add up to 100 unless the sum is 0 |

## Left out

- Network I/O is not modelled; its results are inputs. This covers yfinance, the `requests` session, the Yahoo search call, and yahoo-finance2's `quoteSummary` and `quote`.
- pandas internals are not modelled: choosing the latest column (`max` over the columns), `df.loc`, `pd.isna`. A statement is its rows with the latest cell. Two rows with exactly the same label (where `df.loc` would return a series) are not modelled.
- `get_stock_data`, `_value_or_na`, `_safe_info`, the `as_frame` branch and the result dictionary of `analyze_stock` are glue around the model. So are `_metric_entry` and `build_metrics_response` with their clock reads.
- `app/server.py`, `api/debug.js` and `api/ping.js` are not part of this model; they are routing, filesystem probing and clock reads.
- DOM access, FileReader, PapaParse and HTML rendering are not modelled. Neither is `toFixed` formatting: the model keeps exact weights where the page shows them with two decimals.
- ISO date strings are not modelled. A time stamp is its millisecond value, and the `asOf` date, the first ten characters of its ISO form, is its UTC day number.
- JavaScript's `Number()` on strings is not modelled. Its outcome is given with each provider field, and by the parameter `parse` in the CSV summary.
- IEEE-754 arithmetic is not modelled (rounding, NaN and infinities in the Python info values); amounts are exact reals.
- Whitespace and case are ASCII only. Python's `strip`, `lower`, `isalpha` and `isalnum`, and JavaScript's `trim` and `toUpperCase`, also act on non-ASCII characters.
- Text.IsSpace: covers the six ASCII whitespace characters only. Python's `strip` also removes the four ASCII separators U+001C to U+001F. The model keeps those in a row name, where Python would strip them.
- Concurrency is not modelled. The cache shared by concurrent serverless invocations is modelled for one sequential caller.
- The `|| nowISO` fallback for a cached entry without a fetch time (api/metrics.js:119) is not modelled. The handler always writes the fetch time, so every cached entry has one.
- A query parameter given several times (an array in `req.query`) is not modelled; the parameter is a single string or absent.
- Object key quirks of JavaScript are not modelled. In the role totals, integer-like roles are listed before the others by `Object.entries`, and a role named like an `Object.prototype` member such as `constructor` starts from that member rather than from 0. The model keeps first-occurrence order and starts every role at 0.
- StockAnalysis.MetricStatus: the threshold labels read "< 70%" and "> 12%", but the source treats a value equal to the bound as `Gut`. The model follows the source, with inclusive bounds.
- StockAnalysis.FindRowValue: its own contract states only the no-statement case. The matching rule is proved in `FindRowValueNoMatch` and `FindRowValueFirstMatch`.
