/**
 * The metrics endpoint `GET /api/metrics?symbol=...` (api/metrics.js): numeric
 * coercion of provider fields, the payload built from them, and the request
 * handler with its per-symbol cache of fundamentals that is refreshed after
 * seven whole days.
 *
 * Time stamps are integer milliseconds since the epoch. The clock and the two
 * provider calls are parameters of the handler: `now`, and the outcome each
 * call would have if it were made.
 */
module MetricsEndpoint {
  import opened Wrappers
  import opened Text

  const CACHE_TTL_DAYS: nat := 7
  const MS_PER_DAY: nat := 24 * 60 * 60 * 1000

  // ---------------------------------------------------------------------------
  // Whole-day age of a time stamp
  // ---------------------------------------------------------------------------

  /** A date argument: missing or empty, not parseable, or a point in time. */
  datatype DateArg = Absent | Unparseable | At(millis: int)

  /** A whole number of days, or Infinity. */
  datatype Days = Days(n: nat) | Infinity

  function Abs(x: int): nat {
    if x < 0 then -x else x
  }

  /** Whole days between two dates in either order; Infinity when one of them is not a date. */
  function DaysBetween(from: DateArg, to: DateArg): (d: Days)
    ensures d.Infinity? <==> !from.At? || !to.At?
    ensures d.Days? ==> d.n * MS_PER_DAY <= Abs(to.millis - from.millis) < (d.n + 1) * MS_PER_DAY
  {
    if from.Absent? || to.Absent? then Infinity
    else if from.Unparseable? || to.Unparseable? then Infinity
    else Days(Abs(to.millis - from.millis) / MS_PER_DAY)
  }

  /** The order of the two dates does not matter. */
  lemma DaysBetweenSymmetric(from: DateArg, to: DateArg)
    ensures DaysBetween(from, to) == DaysBetween(to, from)
  {
  }

  /** `days >= limit` where Infinity exceeds every number. */
  predicate AtLeast(d: Days, limit: nat) {
    d.Infinity? || d.n >= limit
  }

  // ---------------------------------------------------------------------------
  // Numeric coercion
  // ---------------------------------------------------------------------------

  /** The result of JavaScript's Number(value). */
  datatype Float = Finite(x: real) | NaN | PositiveInfinity | NegativeInfinity

  /** A field of a provider response: null, undefined, or a value whose Number() is `asNumber`. */
  datatype JsValue = Null | Undefined | Value(asNumber: Float)

  /** A finite number, or null for null, undefined, NaN and the infinities. */
  function SafeNumber(v: JsValue): (r: Option<real>)
    ensures r.Some? <==> v.Value? && v.asNumber.Finite?
    ensures r.Some? ==> r.value == v.asNumber.x
  {
    match v
    case Null => None
    case Undefined => None
    case Value(n) => if n.Finite? then Some(n.x) else None
  }

  /** JavaScript's `a ?? b`: b only when a is null or undefined. */
  function Coalesce(a: JsValue, b: JsValue): JsValue {
    if a.Null? || a.Undefined? then b else a
  }

  /** Total debt over EBITDA, or null unless both are finite and EBITDA is non-zero. */
  function DebtToEbitda(totalDebt: JsValue, ebitda: JsValue): (r: Option<real>)
    ensures r.Some? <==> SafeNumber(totalDebt).Some? && SafeNumber(ebitda).Some? && SafeNumber(ebitda).value != 0.0
    ensures r.Some? ==> r.value * SafeNumber(ebitda).value == SafeNumber(totalDebt).value
  {
    var debt := SafeNumber(totalDebt);
    var e := SafeNumber(ebitda);
    if debt.Some? && e.Some? && e.value != 0.0 then Some(debt.value / e.value) else None
  }

  // ---------------------------------------------------------------------------
  // Provider data and the payload
  // ---------------------------------------------------------------------------

  /**
   * The fields of the fundamentals response the endpoint reads; a field of a
   * missing module is Undefined, a missing name None.
   */
  datatype Fundamentals = Fundamentals(
    longName: Option<string>,            // price
    shortName: Option<string>,
    dividendYield: JsValue,              // summaryDetail
    summaryPayoutRatio: JsValue,
    statsPayoutRatio: JsValue,           // defaultKeyStatistics
    returnOnAssets: JsValue,
    fcfPayoutRatio: JsValue,             // financialData
    totalDebt: JsValue,
    ebitda: JsValue,
    interestCoverage: JsValue,
    returnOnInvestmentCapital: JsValue)

  /** The fields of the daily quote the endpoint reads. */
  datatype Quote = Quote(regularMarketPrice: JsValue, currency: Option<string>, longName: Option<string>, shortName: Option<string>)

  /** The UTC calendar day of a time stamp, as the first ten characters of its ISO form name it. */
  function Day(millis: int): int {
    millis / MS_PER_DAY
  }

  /** One figure of the payload: its value and the day it refers to. */
  datatype Field = Field(value: Option<real>, asOfDay: int)

  function WrapField(value: JsValue, asOfDay: int): Field {
    Field(SafeNumber(value), asOfDay)
  }

  datatype Figures = Figures(
    dividendYield: Field,
    epsPayout: Field,
    fcfPayout: Field,
    debtToEbitda: Field,
    interestCoverage: Field,
    roic: Field,
    dividendGrowth: Field,
    price: Field,
    currency: Option<string>)

  const SOURCE: string := "yahoo-finance2"

  datatype Payload = Payload(
    symbol: string,
    companyName: string,
    fetchedAt: int,
    source: string,
    data: Figures,
    fundamentalsUsedFromCache: bool,
    fundamentalsFetchedAt: int)

  /** Every fundamentals figure of the payload refers to the day the fundamentals were fetched. */
  predicate FundamentalsAsOf(f: Figures, day: int) {
    && f.dividendYield.asOfDay == day && f.epsPayout.asOfDay == day && f.fcfPayout.asOfDay == day
    && f.debtToEbitda.asOfDay == day && f.interestCoverage.asOfDay == day && f.roic.asOfDay == day
    && f.dividendGrowth.asOfDay == day
  }

  /** The response body of a successful request. */
  function BuildPayload(symbol: string, companyName: string, fundamentals: Fundamentals,
                        fundamentalsFetchedAt: int, usedCache: bool, quote: Quote, fetchedAt: int): (p: Payload)
    ensures p.symbol == symbol && p.companyName == companyName && p.fetchedAt == fetchedAt && p.source == SOURCE
    ensures p.fundamentalsUsedFromCache == usedCache && p.fundamentalsFetchedAt == fundamentalsFetchedAt
    ensures FundamentalsAsOf(p.data, Day(fundamentalsFetchedAt)) && p.data.price.asOfDay == Day(fetchedAt)
    ensures p.data.debtToEbitda.value == DebtToEbitda(fundamentals.totalDebt, fundamentals.ebitda)
    ensures p.data.dividendGrowth.value == None
    ensures !(fundamentals.summaryPayoutRatio.Null? || fundamentals.summaryPayoutRatio.Undefined?) ==>
              p.data.epsPayout.value == SafeNumber(fundamentals.summaryPayoutRatio)
    ensures fundamentals.summaryPayoutRatio.Null? || fundamentals.summaryPayoutRatio.Undefined? ==>
              p.data.epsPayout.value == SafeNumber(fundamentals.statsPayoutRatio)
    ensures !(fundamentals.returnOnInvestmentCapital.Null? || fundamentals.returnOnInvestmentCapital.Undefined?) ==>
              p.data.roic.value == SafeNumber(fundamentals.returnOnInvestmentCapital)
    ensures fundamentals.returnOnInvestmentCapital.Null? || fundamentals.returnOnInvestmentCapital.Undefined? ==>
              p.data.roic.value == SafeNumber(fundamentals.returnOnAssets)
    ensures p.data.dividendYield.value == SafeNumber(fundamentals.dividendYield)
    ensures p.data.fcfPayout.value == SafeNumber(fundamentals.fcfPayoutRatio)
    ensures p.data.interestCoverage.value == SafeNumber(fundamentals.interestCoverage)
    ensures p.data.price.value == SafeNumber(quote.regularMarketPrice) && p.data.currency == quote.currency
  {
    var fundamentalsDay := Day(fundamentalsFetchedAt);
    var debtToEbitda := DebtToEbitda(fundamentals.totalDebt, fundamentals.ebitda);
    var debtField := Field(debtToEbitda, fundamentalsDay);
    var figures := Figures(
      WrapField(fundamentals.dividendYield, fundamentalsDay),
      WrapField(Coalesce(fundamentals.summaryPayoutRatio, fundamentals.statsPayoutRatio), fundamentalsDay),
      WrapField(fundamentals.fcfPayoutRatio, fundamentalsDay),
      debtField,
      WrapField(fundamentals.interestCoverage, fundamentalsDay),
      WrapField(Coalesce(fundamentals.returnOnInvestmentCapital, fundamentals.returnOnAssets), fundamentalsDay),
      WrapField(Null, fundamentalsDay),
      WrapField(quote.regularMarketPrice, Day(fetchedAt)),
      quote.currency);
    Payload(symbol, companyName, fetchedAt, SOURCE, figures, usedCache, fundamentalsFetchedAt)
  }

  /** A present, non-empty name (a truthy string in JavaScript). */
  predicate Named(name: Option<string>) {
    name.Some? && name.value != ""
  }

  /** The first truthy name among the fundamentals' and the quote's long and short names, else the symbol. */
  function CompanyName(fundamentals: Fundamentals, quote: Quote, symbol: string): (name: string)
    ensures var candidates := [fundamentals.longName, fundamentals.shortName, quote.longName, quote.shortName];
            && (name != symbol ==> Some(name) in candidates && name != "")
            && ((forall i :: 0 <= i < 4 ==> !Named(candidates[i])) ==> name == symbol)
            && (symbol != "" ==> name != "")
  {
    if Named(fundamentals.longName) then fundamentals.longName.value
    else if Named(fundamentals.shortName) then fundamentals.shortName.value
    else if Named(quote.longName) then quote.longName.value
    else if Named(quote.shortName) then quote.shortName.value
    else symbol
  }

  /** The candidates are tried in a fixed order: the first truthy one is the name. */
  lemma FirstNamedWins(fundamentals: Fundamentals, quote: Quote, symbol: string, i: nat)
    requires var candidates := [fundamentals.longName, fundamentals.shortName, quote.longName, quote.shortName];
             i < 4 && Named(candidates[i]) && forall j :: 0 <= j < i ==> !Named(candidates[j])
    ensures CompanyName(fundamentals, quote, symbol) == [fundamentals.longName, fundamentals.shortName, quote.longName, quote.shortName][i].value
  {
    var candidates := [fundamentals.longName, fundamentals.shortName, quote.longName, quote.shortName];
    if i > 0 { assert !Named(candidates[0]); }
    if i > 1 { assert !Named(candidates[1]); }
    if i > 2 { assert !Named(candidates[2]); }
  }

  // ---------------------------------------------------------------------------
  // Request validation and the freshness rule
  // ---------------------------------------------------------------------------

  /** An incoming request: its HTTP method and the `symbol` query parameter, if any. */
  datatype Request = Request(httpMethod: string, symbolParam: Option<string>)

  /** What a provider call did: returned a value, or threw an error with a message. */
  datatype Outcome<T> = Returned(value: T) | Threw(message: string)

  datatype Body =
    | ErrorBody(code: string, message: string)
    | ProviderError(details: string)
    | PayloadBody(payload: Payload)

  datatype Response = Response(status: nat, body: Body)

  const METHOD_NOT_ALLOWED: Response := Response(405, ErrorBody("method_not_allowed", "Nur GET ist erlaubt."))
  const MISSING_SYMBOL: Response := Response(400, ErrorBody("missing_symbol", "Symbol ist erforderlich."))

  /** A 502 response carrying the error's message, or a generic one when it is empty. */
  function ProviderFailure(message: string): (r: Response)
    ensures r.status == 502 && r.body.ProviderError? && r.body.details != ""
    ensures message != "" ==> r.body.details == message
    ensures message == "" ==> r.body.details == "Unbekannter Fehler"
  {
    Response(502, ProviderError(if message != "" then message else "Unbekannter Fehler"))
  }

  /** The cache key: the symbol parameter trimmed and upper-cased, empty when it is missing. */
  function SymbolKey(symbolParam: Option<string>): string {
    ToUpper(Trim(symbolParam.GetOr("")))
  }

  /** A string the handler can use as a cache key. */
  predicate IsCacheKey(key: string) {
    key != "" && Trim(key) == key && ToUpper(key) == key
  }

  /**
   * The method is checked before the symbol; a symbol that is blank after
   * trimming is refused; otherwise the request proceeds with its cache key.
   */
  function Validate(req: Request): (r: Result<string, Response>)
    ensures req.httpMethod != "GET" ==> r == Failure(METHOD_NOT_ALLOWED)
    ensures req.httpMethod == "GET" ==>
              var param := req.symbolParam.GetOr("");
              && ((forall i :: 0 <= i < |param| ==> IsSpace(param[i])) <==> r == Failure(MISSING_SYMBOL))
              && (r.Success? <==> !(forall i :: 0 <= i < |param| ==> IsSpace(param[i])))
              && (r.Success? ==> r.value == ToUpper(Trim(param)) && IsCacheKey(r.value))
  {
    if req.httpMethod != "GET" then Failure(METHOD_NOT_ALLOWED)
    else
      var symbol := SymbolKey(req.symbolParam);
      TrimSpec(req.symbolParam.GetOr(""));
      UpperTrimStable(req.symbolParam.GetOr(""));
      if symbol == "" then Failure(MISSING_SYMBOL) else Success(symbol)
  }

  /** What the cache holds per symbol: the fundamentals and when they were fetched. */
  datatype CacheEntry = CacheEntry(fundamentals: Fundamentals, fetchedAt: int)

  /** Fundamentals are fetched anew when none are cached or the cached ones are seven or more whole days old. */
  function NeedsRefresh(cache: map<string, CacheEntry>, key: string, now: int): bool {
    key !in cache || AtLeast(DaysBetween(At(cache[key].fetchedAt), At(now)), CACHE_TTL_DAYS)
  }

  /** The refresh rule in milliseconds: no entry, or at least seven full days between fetch and now. */
  lemma NeedsRefreshIffWeekOld(cache: map<string, CacheEntry>, key: string, now: int)
    ensures NeedsRefresh(cache, key, now) <==>
              key !in cache || Abs(now - cache[key].fetchedAt) >= CACHE_TTL_DAYS * MS_PER_DAY
  {
    if key in cache {
      var d := DaysBetween(At(cache[key].fetchedAt), At(now));
      assert d.Days?;
      if d.n >= CACHE_TTL_DAYS {
        assert d.n * MS_PER_DAY >= CACHE_TTL_DAYS * MS_PER_DAY;
      } else {
        assert (d.n + 1) * MS_PER_DAY <= CACHE_TTL_DAYS * MS_PER_DAY;
      }
    }
  }

  /** An entry fetched at t is still used 6 days 23 hours later and refreshed 7 days 1 minute later. */
  lemma FreshnessWindow(cache: map<string, CacheEntry>, key: string, t: int)
    requires key in cache && cache[key].fetchedAt == t
    ensures !NeedsRefresh(cache, key, t + 6 * MS_PER_DAY + 23 * 60 * 60 * 1000)
    ensures NeedsRefresh(cache, key, t + 7 * MS_PER_DAY + 60 * 1000)
  {
    NeedsRefreshIffWeekOld(cache, key, t + 6 * MS_PER_DAY + 23 * 60 * 60 * 1000);
    NeedsRefreshIffWeekOld(cache, key, t + 7 * MS_PER_DAY + 60 * 1000);
  }

  // ---------------------------------------------------------------------------
  // The handler
  // ---------------------------------------------------------------------------

  /** The endpoint with its cache of fundamentals per symbol. */
  class MetricsService {
    var cache: map<string, CacheEntry>

    /** Every key was produced by the handler: non-empty, trimmed and upper-case. */
    ghost predicate Valid()
      reads this
    {
      forall key :: key in cache ==> IsCacheKey(key)
    }

    constructor ()
      ensures Valid() && cache == map[]
    {
      cache := map[];
    }

    /**
     * Handles one request at time `now`. The fundamentals call is made, with
     * outcome `fundamentalsCall`, only when a refresh is needed; the quote call,
     * with outcome `quoteCall`, only after the cache has been written.
     */
    method Handle(req: Request, now: int, fundamentalsCall: Outcome<Fundamentals>, quoteCall: Outcome<Quote>)
      returns (resp: Response)
      requires Valid()
      modifies this
      ensures Valid()
      ensures match Validate(req)
        case Failure(refusal) => resp == refusal && cache == old(cache)
        case Success(key) =>
          var refresh := NeedsRefresh(old(cache), key, now);
          if refresh && fundamentalsCall.Threw? then
            resp == ProviderFailure(fundamentalsCall.message) && cache == old(cache)
          else
            var entry := if refresh then CacheEntry(fundamentalsCall.value, now) else old(cache)[key];
            && cache == old(cache)[key := entry]
            && match quoteCall
               case Threw(message) => resp == ProviderFailure(message)
               case Returned(quote) =>
                 resp == Response(200, PayloadBody(BuildPayload(
                   key, CompanyName(entry.fundamentals, quote, key), entry.fundamentals,
                   entry.fetchedAt, !refresh, quote, now)))
    {
      var validated := Validate(req);
      if validated.Failure? {
        resp := validated.error;
        return;
      }
      var symbol := validated.value;

      var cached := if symbol in cache then Some(cache[symbol]) else None;
      var cacheAgeDays := if cached.Some? then DaysBetween(At(cached.value.fetchedAt), At(now)) else Infinity;
      var needsRefresh := cached.None? || AtLeast(cacheAgeDays, CACHE_TTL_DAYS);

      var fundamentals;
      if needsRefresh {
        match fundamentalsCall
        case Threw(message) =>
          resp := ProviderFailure(message);
          return;
        case Returned(f) =>
          fundamentals := f;
      } else {
        fundamentals := cached.value.fundamentals;
      }
      var fundamentalsFetchedAt := if needsRefresh then now else cached.value.fetchedAt;

      cache := cache[symbol := CacheEntry(fundamentals, fundamentalsFetchedAt)];

      match quoteCall
      case Threw(message) =>
        resp := ProviderFailure(message);
      case Returned(quote) =>
        var companyName := CompanyName(fundamentals, quote, symbol);
        var payload := BuildPayload(symbol, companyName, fundamentals, fundamentalsFetchedAt, !needsRefresh, quote, now);
        resp := Response(200, PayloadBody(payload));
    }
  }

  /**
   * Two requests for one symbol a day apart on a fresh service: the first
   * fetches the fundamentals, the second is served from the cache whatever its
   * fetch would have done.
   */
  method SecondRequestUsesCache(key: string, f: Fundamentals, q: Quote, t: int) returns (first: Response, second: Response)
    requires IsCacheKey(key)
    ensures first.status == 200 && first.body.PayloadBody? && !first.body.payload.fundamentalsUsedFromCache
    ensures second.status == 200 && second.body.PayloadBody? && second.body.payload.fundamentalsUsedFromCache
    ensures second.body.payload.fundamentalsFetchedAt == t && second.body.payload.fetchedAt == t + MS_PER_DAY
  {
    var service := new MetricsService();
    var req := Request("GET", Some(key));
    assert Validate(req) == Success(key);
    first := service.Handle(req, t, Returned(f), Returned(q));
    assert service.cache == map[key := CacheEntry(f, t)];
    second := service.Handle(req, t + MS_PER_DAY, Threw("unused"), Returned(q));
  }
}
