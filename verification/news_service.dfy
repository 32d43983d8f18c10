/** `fetchCompanyNews` (utils/newsService.ts): up to five recent news items
    about the analysed company from the Alpha Vantage NEWS_SENTIMENT
    endpoint.

    The API key (an environment variable) is a parameter, and so is the
    network: `fetch` maps the request URL to the decoded provider response,
    or to `Err` when the request or its JSON decoding throws. The ticker and
    the company name come straight from the parsed model output, so they are
    arbitrary JSON values (`None` for `undefined`). */
module NewsService {
  import opened Outcomes
  import opened Strings
  import opened JsValues
  import opened Types
  import UriComponent

  /** One element of the provider's `feed` (only the fields that are read). */
  datatype FeedItem = FeedItem(
    title: string,
    url: string,
    timePublished: string,
    source: string,
    sourceDomain: string,
    summary: string)

  /** The provider's reply: an error message, a rate-limit note, or a feed. */
  datatype ProviderResponse = ProviderResponse(
    errorMessage: Option<string>,
    note: Option<string>,
    feed: Option<seq<FeedItem>>)

  const MaxEvents: nat := 5

  const TickerPrefix: string := "https://www.alphavantage.co/query?function=NEWS_SENTIMENT&tickers="
  const NamePrefix: string := "https://www.alphavantage.co/query?function=NEWS_SENTIMENT&q="
  const KeySuffixLead: string := "&sort=LATEST&limit=5&apikey="

  /** The request the service makes, or `None` when a guard returns `[]`
      first: no API key, or neither a truthy ticker nor a truthy name. A
      truthy ticker is used as is; otherwise the company name, converted to a
      string, is percent-encoded into the `q` parameter. */
  function RequestUrl(apiKey: Option<string>, ticker: Option<Json>, companyName: Option<Json>,
                      numberText: real -> string): (url: Option<string>)
    ensures url.None? <==> !Present(apiKey) || (!Truthy(ticker) && !Truthy(companyName))
    ensures url.Some? ==> |TickerPrefix| <= |url.value| && |NamePrefix| <= |url.value|
    ensures url.Some? && Truthy(ticker) ==>
              url.value == TickerPrefix + OptText(ticker, numberText) + KeySuffixLead + apiKey.value
    ensures url.Some? && !Truthy(ticker) ==>
              url.value == NamePrefix + UriComponent.Encode(OptText(companyName, numberText)) + KeySuffixLead + apiKey.value
  {
    if !Present(apiKey) then None
    else if !Truthy(ticker) && !Truthy(companyName) then None
    else if Truthy(ticker) then
      Some(TickerPrefix + OptText(ticker, numberText) + KeySuffixLead + apiKey.value)
    else
      Some(NamePrefix + UriComponent.Encode(OptText(companyName, numberText)) + KeySuffixLead + apiKey.value)
  }

  /** The value of the query parameter that starts right after `prefix`:
      everything up to the next `&`. */
  function ParamAfter(url: string, prefix: string): string
    requires |prefix| <= |url|
  {
    Split(url[|prefix|..], '&')[0]
  }

  /** Reading `x` back from `x + "&..."` when `x` holds no `&`. */
  lemma ParamBeforeAmpersand(x: string, t: string)
    requires '&' !in x && |t| > 0 && t[0] == '&'
    ensures Split(x + t, '&')[0] == x
  {
    SplitPrefix(x, t, '&');
    assert Split(t, '&')[0] == [];
    assert x + [] == x;
  }

  /** The `q` parameter of a by-name request decodes back to the company
      name as a string: the encoding keeps it inside its parameter. */
  lemma NameQueryRoundTrip(apiKey: Option<string>, companyName: Option<Json>, numberText: real -> string)
    requires Present(apiKey) && Truthy(companyName)
    ensures var url := RequestUrl(apiKey, None, companyName, numberText).value;
            UriComponent.Decode(ParamAfter(url, NamePrefix)) == Some(OptText(companyName, numberText))
  {
    var name := OptText(companyName, numberText);
    var enc := UriComponent.Encode(name);
    var url := RequestUrl(apiKey, None, companyName, numberText).value;
    var t := KeySuffixLead + apiKey.value;
    Regroup(NamePrefix, enc, KeySuffixLead, apiKey.value);
    assert url[|NamePrefix|..] == enc + t;
    assert '&' !in enc by {
      forall i | 0 <= i < |enc| ensures enc[i] != '&' {
        assert UriComponent.QuerySafe(enc[i]);
      }
    }
    ParamBeforeAmpersand(enc, t);
    UriComponent.DecodeEncode(name);
  }

  /** The ticker is not encoded: its parameter reads back as the ticker's
      text only when that text holds no `&`. */
  lemma TickerQueryReadBack(apiKey: Option<string>, ticker: Option<Json>, numberText: real -> string)
    requires Present(apiKey) && Truthy(ticker) && '&' !in OptText(ticker, numberText)
    ensures ParamAfter(RequestUrl(apiKey, ticker, None, numberText).value, TickerPrefix) == OptText(ticker, numberText)
  {
    var text := OptText(ticker, numberText);
    var url := RequestUrl(apiKey, ticker, None, numberText).value;
    var t := KeySuffixLead + apiKey.value;
    Regroup(TickerPrefix, text, KeySuffixLead, apiKey.value);
    assert url[|TickerPrefix|..] == text + t;
    ParamBeforeAmpersand(text, t);
  }

  /** For example, the NSE ticker "M&M.NS" is cut at its ampersand: the
      provider is asked for "M". */
  lemma TickerWithAmpersandIsCut(apiKey: Option<string>, numberText: real -> string)
    requires Present(apiKey)
    ensures ParamAfter(RequestUrl(apiKey, Some(JStr("M&M.NS")), None, numberText).value, TickerPrefix) == "M"
  {
    var url := RequestUrl(apiKey, Some(JStr("M&M.NS")), None, numberText).value;
    var t := "&M.NS" + KeySuffixLead + apiKey.value;
    assert url == TickerPrefix + ("M" + t);
    assert url[|TickerPrefix|..] == "M" + t;
    ParamBeforeAmpersand("M", t);
  }

  /** `YYYYMMDDTHHMMSS` to `YYYY-MM-DD` with three `substring` calls, which
      clamp on shorter input. */
  function FormatDate(t: string): (d: string)
    ensures |d| == 2 + (if |t| < 8 then |t| else 8)
    ensures |t| >= 8 ==> d == t[..4] + "-" + t[4..6] + "-" + t[6..8]
  {
    Substring(t, 0, 4) + "-" + Substring(t, 4, 6) + "-" + Substring(t, 6, 8)
  }

  lemma DateExample()
    ensures FormatDate("20240115T123000") == "2024-01-15"
  {
    var t := "20240115T123000";
    assert Substring(t, 0, 4) == "2024";
    assert Substring(t, 4, 6) == "01";
    assert Substring(t, 6, 8) == "15";
  }

  /** The formatted date is the first eight characters with two dashes
      inserted: splitting at the dashes gives back year, month and day. */
  lemma FormatDateFields(t: string)
    requires |t| >= 8 && '-' !in t[..8]
    ensures Split(FormatDate(t), '-') == [t[..4], t[4..6], t[6..8]]
  {
    var head := t[..8];
    var parts := [t[..4], t[4..6], t[6..8]];
    assert t[..4] == head[..4] && t[4..6] == head[4..6] && t[6..8] == head[6..8];
    forall i | 0 <= i < 3 ensures '-' !in parts[i] {
      var lo := if i == 0 then 0 else if i == 1 then 4 else 6;
      forall k | 0 <= k < |parts[i]| ensures parts[i][k] != '-' {
        assert parts[i][k] == head[lo + k];
      }
    }
    assert parts[1..][1..] == [t[6..8]];
    assert Join(parts[1..][1..], "-") == t[6..8];
    assert Join(parts[1..], "-") == t[4..6] + "-" + t[6..8];
    assert Join(parts, "-") == t[..4] + "-" + (t[4..6] + "-" + t[6..8]);
    assert FormatDate(t) == t[..4] + "-" + t[4..6] + "-" + t[6..8];
    assert FormatDate(t) == Join(parts, ['-']);
    SplitJoin(parts, '-');
  }

  /** One feed item as a news event: `item.source || item.source_domain`. */
  function EventOf(item: FeedItem): (e: NewsEvent)
    ensures e.title == item.title && e.summary == item.summary && e.url == Some(item.url)
    ensures e.date == FormatDate(item.timePublished)
    ensures e.source != "" <==> item.source != "" || item.sourceDomain != ""
    ensures item.source != "" ==> e.source == item.source
    ensures item.source == "" ==> e.source == item.sourceDomain
  {
    NewsEvent(FormatDate(item.timePublished), item.title,
              if item.source != "" then item.source else item.sourceDomain,
              item.summary, Some(item.url))
  }

  function MapEvents(items: seq<FeedItem>): (r: seq<NewsEvent>)
    ensures |r| == |items|
    ensures forall i :: 0 <= i < |items| ==> r[i] == EventOf(items[i])
  {
    if items == [] then [] else [EventOf(items[0])] + MapEvents(items[1..])
  }

  /** The reply handling: a thrown request, an error message, a rate-limit
      note or a missing feed all give `[]`; otherwise every feed item is
      mapped and the first five kept. */
  function EventsFrom(response: Result<ProviderResponse>): (events: seq<NewsEvent>)
    ensures |events| <= MaxEvents
    ensures (|| response.Err? || Present(response.value.errorMessage) || Present(response.value.note)
             || response.value.feed.None?) ==> events == []
    ensures events != [] ==> response.Ok? && response.value.feed.Some?
    ensures response.Ok? && !Present(response.value.errorMessage) && !Present(response.value.note)
            && response.value.feed.Some? ==>
              && |events| == (if |response.value.feed.value| < MaxEvents then |response.value.feed.value| else MaxEvents)
              && forall i :: 0 <= i < |events| ==> events[i] == EventOf(response.value.feed.value[i])
  {
    match response
    case Err(_) => []
    case Ok(data) =>
      if Present(data.errorMessage) then []
      else if Present(data.note) then []
      else if data.feed.None? then []
      else
        var all := MapEvents(data.feed.value);
        if |all| <= MaxEvents then all else all[..MaxEvents]
  }

  /** `fetchCompanyNews(ticker, companyName)`: the events obtained from the
      request `RequestUrl` builds; no request, no events. */
  function FetchCompanyNews(apiKey: Option<string>, ticker: Option<Json>, companyName: Option<Json>,
                            numberText: real -> string, fetch: string -> Result<ProviderResponse>): (events: seq<NewsEvent>)
    ensures |events| <= MaxEvents
    ensures RequestUrl(apiKey, ticker, companyName, numberText).None? ==> events == []
    ensures events != [] ==> RequestUrl(apiKey, ticker, companyName, numberText).Some?
    ensures RequestUrl(apiKey, ticker, companyName, numberText).Some? ==>
              events == EventsFrom(fetch(RequestUrl(apiKey, ticker, companyName, numberText).value))
  {
    match RequestUrl(apiKey, ticker, companyName, numberText)
    case None => []
    case Some(url) => EventsFrom(fetch(url))
  }

  /** Without an API key nothing is requested, whatever the provider would say. */
  lemma MissingKeyNoNews(ticker: Option<Json>, companyName: Option<Json>, numberText: real -> string,
                         fetch: string -> Result<ProviderResponse>)
    ensures FetchCompanyNews(None, ticker, companyName, numberText, fetch) == []
    ensures FetchCompanyNews(Some(""), ticker, companyName, numberText, fetch) == []
  {
  }

  /** A feed longer than five items is cut to its first five, in order. */
  lemma LongFeedKeepsFirstFive(items: seq<FeedItem>)
    requires |items| > MaxEvents
    ensures EventsFrom(Ok(ProviderResponse(None, None, Some(items)))) == MapEvents(items[..MaxEvents])
  {
    var r := EventsFrom(Ok(ProviderResponse(None, None, Some(items))));
    var m := MapEvents(items[..MaxEvents]);
    assert |r| == |m|;
    forall i | 0 <= i < |r| ensures r[i] == m[i] {
      assert items[..MaxEvents][i] == items[i];
    }
  }
}
