/** The pure helpers behind the analysis dashboard
    (components/SankeyDiagram.tsx): the unit abbreviation and ratio text,
    the choice between local and USD figures, the derived profits and the
    clamped revenue-flow links, the trend-chart rows and the numbered source
    citations.

    The dashboard works on a typed result (module Types). Number formatting
    (`Intl.NumberFormat`, `toFixed`, `String(n)` for a year) and the host
    name of a URL are parameters; the charts themselves are not drawn, their
    input rows are returned. */
module Dashboard {
  import opened Outcomes
  import opened Strings
  import opened Types
  import Grounding

  // ---- unit abbreviation ----

  /** The scale words that are looked for, in the order they are tried, with
      the suffix each one gives. */
  const Scales: seq<(string, string)> := [("million", " M"), ("billion", " B"), ("crore", " Cr"), ("thousand", " K")]

  /** The suffix `formatCurrency` appends for a unit: the first scale word
      the lower-cased unit contains; nothing for an absent or empty unit. */
  function UnitAbbreviation(unit: Option<string>): (abbr: string)
    ensures abbr == "" <==> (|| unit.None? || unit.value == []
                             || forall i :: 0 <= i < |Scales| ==> !Includes(ToLower(unit.value), Scales[i].0))
    ensures abbr != "" ==> exists i :: 0 <= i < |Scales| && FirstScale(ToLower(unit.value), 0, i) && abbr == Scales[i].1
  {
    if unit.None? || unit.value == [] then "" else ScaleSuffix(ToLower(unit.value), 0)
  }

  /** The suffix of the first scale word from position `from` of the table
      on that `lower` contains. */
  function ScaleSuffix(lower: string, from: nat): (abbr: string)
    requires from <= |Scales|
    ensures abbr == "" <==> forall i :: from <= i < |Scales| ==> !Includes(lower, Scales[i].0)
    ensures abbr != "" ==> exists i :: from <= i < |Scales| && FirstScale(lower, from, i) && abbr == Scales[i].1
    decreases |Scales| - from
  {
    if from == |Scales| then ""
    else if Includes(lower, Scales[from].0) then
      assert FirstScale(lower, from, from);
      assert Scales[from].1 != "" by { assert from < 4; }
      Scales[from].1
    else ScaleSuffix(lower, from + 1)
  }

  /** Scale word `i` occurs in `lower` and none between `from` and `i` does. */
  predicate FirstScale(lower: string, from: nat, i: nat)
    requires i < |Scales|
  {
    from <= i && Includes(lower, Scales[i].0) && forall j :: from <= j < i ==> !Includes(lower, Scales[j].0)
  }

  lemma LowerCharIdempotent(c: char)
    ensures LowerChar(LowerChar(c)) == LowerChar(c)
  {
  }

  /** The test ignores case: a unit and its lower-cased form abbreviate
      alike. */
  lemma UnitIgnoresCase(unit: string)
    ensures UnitAbbreviation(Some(unit)) == UnitAbbreviation(Some(ToLower(unit)))
  {
    var once := ToLower(unit);
    var twice := ToLower(once);
    forall i | 0 <= i < |unit| ensures twice[i] == once[i] {
      LowerCharIdempotent(unit[i]);
    }
    assert twice == once;
  }

  /** The first scale word wins: a unit mentioning both millions and
      thousands is abbreviated as millions. */
  lemma MillionsBeforeThousands(unit: string)
    requires Includes(ToLower(unit), "million")
    ensures UnitAbbreviation(Some(unit)) == " M"
  {
  }

  /** `formatCurrency(value, currency, unit)`. `currencyFormat` is
      `Intl.NumberFormat` in currency style, `None` when it throws (an
      unknown currency code); `plainFormat` is the plain style used by the
      fallback. */
  function FormatCurrency(value: real, currency: string, unit: Option<string>,
                          currencyFormat: (real, string) -> Option<string>, plainFormat: real -> string): (text: string)
    ensures |UnitAbbreviation(unit)| <= |text|
    ensures text[|text| - |UnitAbbreviation(unit)|..] == UnitAbbreviation(unit)
    ensures currencyFormat(value, currency).Some? ==> text[..|text| - |UnitAbbreviation(unit)|] == currencyFormat(value, currency).value
    ensures currencyFormat(value, currency).None? ==> text[..|text| - |UnitAbbreviation(unit)|] == currency + " " + plainFormat(value)
  {
    var abbr := UnitAbbreviation(unit);
    match currencyFormat(value, currency)
    case Some(formatted) => formatted + abbr
    case None => currency + " " + plainFormat(value) + abbr
  }

  // ---- ratios ----

  /** `formatRatio(value, isPercent)` with `toFixed(2)` as `fixed2`. */
  function FormatRatio(value: Option<real>, isPercent: bool, fixed2: real -> string): (text: string)
    ensures value.None? ==> text == "N/A"
    ensures value.Some? && !isPercent ==> text == fixed2(value.value)
    ensures value.Some? && isPercent ==> |text| >= 1 && text[|text| - 1] == '%' && text[..|text| - 1] == fixed2(value.value)
  {
    match value
    case None => "N/A"
    case Some(v) => fixed2(v) + (if isPercent then "%" else "")
  }

  /** The six ratio cards, as (title, text) pairs: the three margins are
      percentages. */
  function RatioCards(r: RatioAnalysis, fixed2: real -> string): (cards: seq<(string, string)>)
    ensures |cards| == 6
    ensures forall i :: 0 <= i < 6 ==> cards[i].1 == FormatRatio(RatioValues(r)[i], 1 <= i <= 3, fixed2)
  {
    var values := RatioValues(r);
    var cards := [("Current Ratio", FormatRatio(r.currentRatio, false, fixed2)),
                  ("Gross Margin", FormatRatio(r.grossMarginPercent, true, fixed2)),
                  ("Operating Margin", FormatRatio(r.operatingMarginPercent, true, fixed2)),
                  ("Net Profit Margin", FormatRatio(r.netProfitMarginPercent, true, fixed2)),
                  ("Debt-to-Equity", FormatRatio(r.debtToEquity, false, fixed2)),
                  ("Asset Turnover", FormatRatio(r.assetTurnover, false, fixed2))];
    assert values[0] == r.currentRatio && values[1] == r.grossMarginPercent && values[2] == r.operatingMarginPercent;
    assert values[3] == r.netProfitMarginPercent && values[4] == r.debtToEquity && values[5] == r.assetTurnover;
    cards
  }

  /** The six ratios in card order. */
  function RatioValues(r: RatioAnalysis): seq<Option<real>> {
    [r.currentRatio, r.grossMarginPercent, r.operatingMarginPercent, r.netProfitMarginPercent,
     r.debtToEquity, r.assetTurnover]
  }

  // ---- which figures are shown ----

  /** The currency toggle, which starts at `Local`. */
  datatype CurrencyDisplay = Local | Usd

  /** The figures on screen and the currency they are labelled with. */
  datatype Display = Display(financials: Financials, currency: string)

  /** The USD figures are shown only when the toggle says so and the result
      has them. */
  function SelectDisplay(r: AnalysisResult, toggle: CurrencyDisplay): (d: Display)
    ensures toggle == Usd && r.financialsUSD.Some? ==> d == Display(r.financialsUSD.value.AsFinancials(), "USD")
    ensures toggle == Local || r.financialsUSD.None? ==> d == Display(r.financialsLocal, r.currency)
  {
    if toggle == Local || r.financialsUSD.None? then Display(r.financialsLocal, r.currency)
    else Display(r.financialsUSD.value.AsFinancials(), "USD")
  }

  // ---- derived figures and the revenue flow ----

  function GrossProfit(f: Financials): (g: real)
    ensures g + f.cogs == f.revenue
  {
    f.revenue - f.cogs
  }

  function NetOperatingIncome(f: Financials): (n: real)
    ensures n + f.opex == GrossProfit(f)
    ensures n + f.opex + f.cogs == f.revenue
  {
    GrossProfit(f) - f.opex
  }

  /** A chart value: `v > 0 ? v : 0`. */
  function Clamp(v: real): (c: real)
    ensures c >= 0.0 && c >= v
    ensures c == v <==> v >= 0.0
    ensures c == 0.0 <==> v <= 0.0
  {
    if v > 0.0 then v else 0.0
  }

  datatype Link = Link(from: string, to: string, value: real)

  /** The four links of the revenue-flow diagram. */
  function SankeyLinks(f: Financials): (links: seq<Link>)
    ensures |links| == 4
    ensures forall i :: 0 <= i < 4 ==> links[i].value >= 0.0
    ensures links[0].from == links[1].from == "Revenue"
    ensures links[1].to == links[2].from == links[3].from == "Gross Profit"
    ensures links[0].value == Clamp(f.cogs) && links[1].value == Clamp(GrossProfit(f))
    ensures links[2].value == Clamp(f.opex) && links[3].value == Clamp(NetOperatingIncome(f))
  {
    [Link("Revenue", "Cost of Goods Sold", Clamp(f.cogs)),
     Link("Revenue", "Gross Profit", Clamp(GrossProfit(f))),
     Link("Gross Profit", "Operating Expenses", Clamp(f.opex)),
     Link("Gross Profit", "Net Operating Income", Clamp(NetOperatingIncome(f)))]
  }

  /** What leaves the "Gross Profit" node is never less than what enters
      it, and the two are equal exactly when operating expenses and net
      operating income do not have strictly opposite signs. */
  lemma GrossProfitNodeBalance(f: Financials)
    ensures var links := SankeyLinks(f);
            && links[2].value + links[3].value >= links[1].value
            && (links[2].value + links[3].value == links[1].value
                <==> (f.opex >= 0.0 && NetOperatingIncome(f) >= 0.0) || (f.opex <= 0.0 && NetOperatingIncome(f) <= 0.0))
  {
    var links := SankeyLinks(f);
    assert GrossProfit(f) == f.opex + NetOperatingIncome(f);
  }

  /** When nothing is negative the diagram conserves the flow: revenue
      splits into costs and gross profit, gross profit into operating
      expenses and net operating income. */
  lemma FlowConserved(f: Financials)
    requires f.cogs >= 0.0 && f.opex >= 0.0 && NetOperatingIncome(f) >= 0.0
    ensures var links := SankeyLinks(f);
            && links[0].value + links[1].value == f.revenue
            && links[2].value + links[3].value == links[1].value
  {
    GrossProfitNodeBalance(f);
  }

  // ---- the trend chart ----

  datatype Cell = TextCell(text: string) | NumberCell(number: real)

  /** `String(d.year)`. */
  function YearText(y: Year, numberText: real -> string): string {
    match y
    case YearText(t) => t
    case YearNumber(n) => numberText(n)
  }

  function ChartRow(d: TrendChartData, numberText: real -> string): seq<Cell> {
    [TextCell(YearText(d.year, numberText)), NumberCell(d.revenue), NumberCell(d.profitBeforeTax)]
  }

  function ChartRows(points: seq<TrendChartData>, numberText: real -> string): (rows: seq<seq<Cell>>)
    ensures |rows| == |points|
    ensures forall i :: 0 <= i < |points| ==> rows[i] == ChartRow(points[i], numberText)
  {
    if points == [] then [] else [ChartRow(points[0], numberText)] + ChartRows(points[1..], numberText)
  }

  const ChartHeader: seq<Cell> := [TextCell("Year"), TextCell("Revenue"), TextCell("Profit Before Tax")]

  /** The trend section: the chart's rows, or the "not enough data" note
      when there is at most one point. */
  datatype TrendSection = TrendChart(rows: seq<seq<Cell>>, unitText: string) | NotEnoughData

  /** `unit ? ' (in ' + unit + ')' : ''`, appended to both axis titles. */
  function UnitText(unit: string): (t: string)
    ensures t == "" <==> unit == ""
    ensures t != "" ==> |t| == |unit| + 6
    ensures t != "" ==> t[..5] == " (in " && t[5..|t| - 1] == unit && t[|t| - 1] == ')'
  {
    if unit == "" then "" else " (in " + unit + ")"
  }

  function TrendSectionOf(points: seq<TrendChartData>, unit: string, numberText: real -> string): (section: TrendSection)
    ensures section.TrendChart? <==> |points| > 1
    ensures section.TrendChart? ==> |section.rows| == |points| + 1 && section.rows[0] == ChartHeader
    ensures section.TrendChart? ==> forall i :: 0 <= i < |points| ==> section.rows[i + 1] == ChartRow(points[i], numberText)
  {
    if |points| > 1 then TrendChart([ChartHeader] + ChartRows(points, numberText), UnitText(unit))
    else NotEnoughData
  }

  /** The chart's numeric columns give back the points' revenue and profit,
      in order. */
  lemma ChartColumnsReadBack(points: seq<TrendChartData>, unit: string, numberText: real -> string)
    requires |points| > 1
    ensures var rows := TrendSectionOf(points, unit, numberText).rows;
            forall i :: 0 <= i < |points| ==>
              rows[i + 1][1] == NumberCell(points[i].revenue) && rows[i + 1][2] == NumberCell(points[i].profitBeforeTax)
  {
  }

  // ---- source citations ----

  function DigitChar(d: nat): char
    requires d < 10
  {
    ('0' as int + d) as char
  }

  /** A whole number in decimal, as a template literal writes it. */
  function NatText(n: nat): (s: string)
    ensures |s| >= 1 && forall i :: 0 <= i < |s| ==> '0' <= s[i] <= '9'
    decreases n
  {
    if n < 10 then [DigitChar(n)] else NatText(n / 10) + [DigitChar(n % 10)]
  }

  /** Reads a string of decimal digits. */
  function DigitsValue(s: string): nat
    requires forall i :: 0 <= i < |s| ==> '0' <= s[i] <= '9'
    decreases |s|
  {
    if s == [] then 0 else 10 * DigitsValue(s[..|s| - 1]) + (s[|s| - 1] as int - '0' as int)
  }

  lemma {:induction false} NatTextReadBack(n: nat)
    ensures DigitsValue(NatText(n)) == n
    decreases n
  {
    var s := NatText(n);
    if n < 10 {
      assert s[..0] == [];
    } else {
      NatTextReadBack(n / 10);
      assert s[..|s| - 1] == NatText(n / 10);
    }
  }

  datatype Citation = Citation(number: nat, href: string, caption: string)

  /** `[${index + 1}] ${title || new URL(uri).hostname}`. */
  function CitationLabel(number: nat, web: WebSource, hostname: string -> string): string {
    "[" + NatText(number) + "] " + (if web.title != "" then web.title else hostname(web.uri))
  }

  /** The list items for `sources`, the first of which has index `offset`:
      one per source with `web`, numbered by its position in the whole
      list. */
  function CitationsFrom(sources: seq<GroundingSource>, offset: nat, hostname: string -> string): (items: seq<Citation>)
    ensures |items| <= |sources|
    ensures forall k :: 0 <= k < |items| ==> offset < items[k].number <= offset + |sources|
    decreases |sources|
  {
    if sources == [] then []
    else
      var rest := CitationsFrom(sources[1..], offset + 1, hostname);
      if sources[0].web.Some? then [Cite(offset + 1, sources[0].web.value, hostname)] + rest
      else rest
  }

  predicate PointAtSources(items: seq<Citation>, sources: seq<GroundingSource>, offset: nat, hostname: string -> string) {
    forall k :: 0 <= k < |items| ==>
      && offset < items[k].number <= offset + |sources|
      && sources[items[k].number - offset - 1].web.Some?
      && items[k] == Cite(items[k].number, sources[items[k].number - offset - 1].web.value, hostname)
  }

  predicate CoverSources(items: seq<Citation>, sources: seq<GroundingSource>, offset: nat) {
    forall i :: 0 <= i < |sources| && sources[i].web.Some? ==>
      exists k :: 0 <= k < |items| && items[k].number == offset + i + 1
  }

  /** Every item comes from the source its number points at, which has
      `web`. */
  lemma {:induction false} CitationsPointAtSources(sources: seq<GroundingSource>, offset: nat, hostname: string -> string)
    ensures PointAtSources(CitationsFrom(sources, offset, hostname), sources, offset, hostname)
    decreases |sources|
  {
    if sources != [] {
      var rest := CitationsFrom(sources[1..], offset + 1, hostname);
      CitationsPointAtSources(sources[1..], offset + 1, hostname);
      PointShift(rest, sources, offset, hostname);
      if sources[0].web.Some? {
        PointCons(Cite(offset + 1, sources[0].web.value, hostname), rest, sources, offset, hostname);
      }
    }
  }

  /** Items pointing into the tail point into the whole list, one further on. */
  lemma PointShift(items: seq<Citation>, sources: seq<GroundingSource>, offset: nat, hostname: string -> string)
    requires |sources| > 0 && PointAtSources(items, sources[1..], offset + 1, hostname)
    ensures PointAtSources(items, sources, offset, hostname)
  {
    forall k | 0 <= k < |items|
      ensures && offset < items[k].number <= offset + |sources|
              && sources[items[k].number - offset - 1].web.Some?
              && items[k] == Cite(items[k].number, sources[items[k].number - offset - 1].web.value, hostname)
    {
      assert sources[1..][items[k].number - (offset + 1) - 1] == sources[items[k].number - offset - 1];
    }
  }

  /** The item for the head source may go in front. */
  lemma PointCons(c: Citation, items: seq<Citation>, sources: seq<GroundingSource>, offset: nat, hostname: string -> string)
    requires |sources| > 0 && sources[0].web.Some? && c == Cite(offset + 1, sources[0].web.value, hostname)
    requires PointAtSources(items, sources, offset, hostname)
    ensures PointAtSources([c] + items, sources, offset, hostname)
  {
    var all := [c] + items;
    forall k | 0 <= k < |all|
      ensures && offset < all[k].number <= offset + |sources|
              && sources[all[k].number - offset - 1].web.Some?
              && all[k] == Cite(all[k].number, sources[all[k].number - offset - 1].web.value, hostname)
    {
      if k > 0 {
        assert all[k] == items[k - 1];
      }
    }
  }

  predicate Ascending(items: seq<Citation>) {
    forall a, b :: 0 <= a < b < |items| ==> items[a].number < items[b].number
  }

  /** The numbers strictly increase down the list. */
  lemma {:induction false} CitationsAscend(sources: seq<GroundingSource>, offset: nat, hostname: string -> string)
    ensures Ascending(CitationsFrom(sources, offset, hostname))
    decreases |sources|
  {
    if sources != [] {
      var items := CitationsFrom(sources, offset, hostname);
      var rest := CitationsFrom(sources[1..], offset + 1, hostname);
      assert items == (if sources[0].web.Some? then [Cite(offset + 1, sources[0].web.value, hostname)] + rest else rest);
      CitationsAscend(sources[1..], offset + 1, hostname);
      if sources[0].web.Some? {
        forall a, b | 0 <= a < b < |items| ensures items[a].number < items[b].number {
          assert items[b] == rest[b - 1];
          assert rest[b - 1].number > offset + 1;
          if a > 0 {
            assert items[a] == rest[a - 1];
            assert rest[a - 1].number < rest[b - 1].number;
          } else {
            assert items[a].number == offset + 1;
          }
        }
      }
    }
  }

  /** Every source with `web` gets an item, numbered by its position. */
  lemma {:induction false} CitationsCoverSources(sources: seq<GroundingSource>, offset: nat, hostname: string -> string)
    ensures CoverSources(CitationsFrom(sources, offset, hostname), sources, offset)
    decreases |sources|
  {
    if sources != [] {
      var items := CitationsFrom(sources, offset, hostname);
      var rest := CitationsFrom(sources[1..], offset + 1, hostname);
      CitationsCoverSources(sources[1..], offset + 1, hostname);
      forall i | 0 <= i < |sources| && sources[i].web.Some?
        ensures exists k :: 0 <= k < |items| && items[k].number == offset + i + 1
      {
        if i == 0 {
          assert items[0] == Cite(offset + 1, sources[0].web.value, hostname);
        } else {
          assert sources[1..][i - 1] == sources[i];
          var k :| 0 <= k < |rest| && rest[k].number == offset + 1 + (i - 1) + 1;
          var j := if sources[0].web.Some? then k + 1 else k;
          assert items[j] == rest[k];
        }
      }
    }
  }

  function Cite(number: nat, web: WebSource, hostname: string -> string): Citation {
    Citation(number, web.uri, CitationLabel(number, web, hostname))
  }

  /** `SourceCitations`: nothing at all for an empty list; otherwise the
      "Sources" block with its items. */
  function SourceCitations(sources: seq<GroundingSource>, hostname: string -> string): (block: Option<seq<Citation>>)
    ensures block.None? <==> sources == []
    ensures block.Some? ==> block.value == CitationsFrom(sources, 0, hostname)
  {
    if sources == [] then None else Some(CitationsFrom(sources, 0, hostname))
  }

  /** The number in a label reads back as the citation's number. */
  lemma CitationNumberReadBack(number: nat, web: WebSource, hostname: string -> string)
    ensures var caption := CitationLabel(number, web, hostname);
            var digits := NatText(number);
            && caption[0] == '[' && caption[1..|digits| + 1] == digits && caption[|digits| + 1] == ']'
            && DigitsValue(caption[1..|digits| + 1]) == number
  {
    var digits := NatText(number);
    var caption := CitationLabel(number, web, hostname);
    assert caption == "[" + digits + "] " + (if web.title != "" then web.title else hostname(web.uri));
    assert caption[1..|digits| + 1] == digits;
    NatTextReadBack(number);
  }

  /** Sources kept by the grounding filter all have a title, so the host
      name of their URL is never consulted. */
  lemma {:induction false} ShownSourcesIgnoreHostname(sources: seq<GroundingSource>, offset: nat,
                                                     h1: string -> string, h2: string -> string)
    requires forall i :: 0 <= i < |sources| ==> Grounding.Shown(sources[i])
    ensures CitationsFrom(sources, offset, h1) == CitationsFrom(sources, offset, h2)
    decreases |sources|
  {
    if sources != [] {
      ShownSourcesIgnoreHostname(sources[1..], offset + 1, h1, h2);
    }
  }
}
