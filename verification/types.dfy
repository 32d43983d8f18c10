/** The typed records of the application (types.ts) and their JSON encoding.

    The encoding writes properties in the order the record types declare
    them; optional properties (`financialsUSD`, `newsAnalysis`,
    `investmentRecommendation`, an event's `url`) are left out when absent,
    and `null`-able numbers and the ticker become `null`. */
module Types {
  import opened Outcomes
  import opened JsValues

  datatype Financials = Financials(revenue: real, cogs: real, opex: real, unit: string)

  /** `FinancialsUSD extends Financials` with the exchange rate used. */
  datatype FinancialsUSD = FinancialsUSD(revenue: real, cogs: real, opex: real, unit: string, exchangeRate: real)
  {
    function AsFinancials(): Financials {
      Financials(revenue, cogs, opex, unit)
    }
  }

  datatype RatioAnalysis = RatioAnalysis(
    summary: string,
    currentRatio: Option<real>,
    grossMarginPercent: Option<real>,
    operatingMarginPercent: Option<real>,
    netProfitMarginPercent: Option<real>,
    debtToEquity: Option<real>,
    assetTurnover: Option<real>)

  /** `string | number` */
  datatype Year = YearText(text: string) | YearNumber(number: real)

  datatype TrendChartData = TrendChartData(year: Year, revenue: real, profitBeforeTax: real)

  datatype TrendAnalysis = TrendAnalysis(summary: string, chartData: seq<TrendChartData>)

  datatype NewsEvent = NewsEvent(date: string, title: string, source: string, summary: string, url: Option<string>)

  datatype NewsAnalysis = NewsAnalysis(events: seq<NewsEvent>, summary: string)

  datatype Analysis = Analysis(ratioAnalysis: RatioAnalysis, trendAnalysis: TrendAnalysis, newsAnalysis: Option<NewsAnalysis>)

  datatype Action = Buy | Hold | Sell

  datatype StockRecommendation = StockRecommendation(action: Action, justification: string)

  datatype AnalysisResult = AnalysisResult(
    companyName: string,
    tickerSymbol: Option<string>,
    currency: string,
    mostRecentYear: Year,
    financialsLocal: Financials,
    financialsUSD: Option<FinancialsUSD>,
    analysis: Analysis,
    recommendations: seq<string>,
    investmentRecommendation: Option<StockRecommendation>)

  datatype WebSource = WebSource(uri: string, title: string)

  datatype GroundingSource = GroundingSource(web: Option<WebSource>)

  // ---- JSON encoding ----

  function NullableNumber(v: Option<real>): Json {
    match v
    case None => JNull
    case Some(n) => JNum(n)
  }

  function EncodeYear(y: Year): Json {
    match y
    case YearText(t) => JStr(t)
    case YearNumber(n) => JNum(n)
  }

  function EncodeFinancials(f: Financials): Json {
    JObj([Field("revenue", JNum(f.revenue)), Field("cogs", JNum(f.cogs)), Field("opex", JNum(f.opex)),
          Field("unit", JStr(f.unit))])
  }

  function EncodeFinancialsUSD(f: FinancialsUSD): Json {
    JObj([Field("revenue", JNum(f.revenue)), Field("cogs", JNum(f.cogs)), Field("opex", JNum(f.opex)),
          Field("unit", JStr(f.unit)), Field("exchangeRate", JNum(f.exchangeRate))])
  }

  function EncodeRatioAnalysis(r: RatioAnalysis): Json {
    JObj([
      Field("summary", JStr(r.summary)),
      Field("liquidity", JObj([Field("currentRatio", NullableNumber(r.currentRatio))])),
      Field("profitability", JObj([
        Field("grossMarginPercent", NullableNumber(r.grossMarginPercent)),
        Field("operatingMarginPercent", NullableNumber(r.operatingMarginPercent)),
        Field("netProfitMarginPercent", NullableNumber(r.netProfitMarginPercent))])),
      Field("debt", JObj([Field("debtToEquity", NullableNumber(r.debtToEquity))])),
      Field("efficiency", JObj([Field("assetTurnover", NullableNumber(r.assetTurnover))]))])
  }

  function EncodeChartPoint(d: TrendChartData): Json {
    JObj([Field("year", EncodeYear(d.year)), Field("revenue", JNum(d.revenue)),
          Field("profitBeforeTax", JNum(d.profitBeforeTax))])
  }

  function EncodeChartData(points: seq<TrendChartData>): (r: seq<Json>)
    ensures |r| == |points|
  {
    if points == [] then [] else [EncodeChartPoint(points[0])] + EncodeChartData(points[1..])
  }

  function EncodeTrendAnalysis(t: TrendAnalysis): Json {
    JObj([Field("summary", JStr(t.summary)), Field("chartData", JArr(EncodeChartData(t.chartData)))])
  }

  /** A news event as the object literal `{date, title, source, summary, url}`. */
  function EncodeNewsEvent(e: NewsEvent): Json {
    JObj([Field("date", JStr(e.date)), Field("title", JStr(e.title)), Field("source", JStr(e.source)),
          Field("summary", JStr(e.summary))]
         + (if e.url.Some? then [Field("url", JStr(e.url.value))] else []))
  }

  function EncodeNewsEvents(events: seq<NewsEvent>): (r: seq<Json>)
    ensures |r| == |events|
    ensures forall i :: 0 <= i < |events| ==> r[i] == EncodeNewsEvent(events[i])
  {
    if events == [] then [] else [EncodeNewsEvent(events[0])] + EncodeNewsEvents(events[1..])
  }

  function EncodeNewsAnalysis(n: NewsAnalysis): Json {
    JObj([Field("events", JArr(EncodeNewsEvents(n.events))), Field("summary", JStr(n.summary))])
  }

  function EncodeAnalysis(a: Analysis): Json {
    JObj([Field("ratioAnalysis", EncodeRatioAnalysis(a.ratioAnalysis)),
          Field("trendAnalysis", EncodeTrendAnalysis(a.trendAnalysis))]
         + (if a.newsAnalysis.Some? then [Field("newsAnalysis", EncodeNewsAnalysis(a.newsAnalysis.value))] else []))
  }

  function EncodeStrings(ss: seq<string>): (r: seq<Json>)
    ensures |r| == |ss|
  {
    if ss == [] then [] else [JStr(ss[0])] + EncodeStrings(ss[1..])
  }

  function EncodeAction(a: Action): Json {
    match a
    case Buy => JStr("Buy")
    case Hold => JStr("Hold")
    case Sell => JStr("Sell")
  }

  function EncodeRecommendation(s: StockRecommendation): Json {
    JObj([Field("action", EncodeAction(s.action)), Field("justification", JStr(s.justification))])
  }

  /** The analysis result as the JSON object the model is asked to emit. */
  function Encode(r: AnalysisResult): Json {
    JObj([
      Field("companyName", JStr(r.companyName)),
      Field("tickerSymbol", if r.tickerSymbol.Some? then JStr(r.tickerSymbol.value) else JNull),
      Field("currency", JStr(r.currency)),
      Field("mostRecentYear", EncodeYear(r.mostRecentYear)),
      Field("financialsLocal", EncodeFinancials(r.financialsLocal))]
      + (if r.financialsUSD.Some? then [Field("financialsUSD", EncodeFinancialsUSD(r.financialsUSD.value))] else [])
      + [Field("analysis", EncodeAnalysis(r.analysis)),
         Field("recommendations", JArr(EncodeStrings(r.recommendations)))]
      + (if r.investmentRecommendation.Some? then [Field("investmentRecommendation", EncodeRecommendation(r.investmentRecommendation.value))] else []))
  }
}
