/** `extractData` (hooks/useFinancialDataExtractor.ts): the pipeline from an
    uploaded statement to a validated analysis with its citation sources.

    Steps, each announced through the progress callback before it runs:
    read the file (10), ask the model (30), check the reply is not empty
    (60), parse and validate it, then collect the grounding sources (70),
    fetch and merge the verified news (85), finish (100). The first failing
    step ends the run by throwing; the news step never throws.

    Everything outside the hook is a parameter bundled in `Environment`:
    reading the file as base64, the model call (given that data), JSON
    parsing, the news API key, the news provider, number formatting. */
module Extractor {
  import opened Outcomes
  import opened JsValues
  import Types
  import ResponseParser
  import Grounding
  import NewsService
  import NewsMerge

  datatype Candidate = Candidate(finishReason: Option<string>, groundingMetadata: Option<Grounding.GroundingMetadata>)

  /** The parts of the model's response that are read. */
  datatype ModelResponse = ModelResponse(text: Option<string>, candidates: Option<seq<Candidate>>)

  datatype Environment = Environment(
    readFile: Outcome<string>,
    generate: string -> Outcome<ModelResponse>,
    parse: string -> Option<Json>,
    newsApiKey: Option<string>,
    fetchNews: string -> Result<NewsService.ProviderResponse>,
    numberText: real -> string)

  datatype Extraction = Extraction(analysis: Json, sources: seq<Types.GroundingSource>)

  /** One call of the progress callback. */
  datatype Progress = Progress(stage: string, percent: int)

  /** The callbacks made, in order, and how the run ended. */
  datatype Run = Run(progress: seq<Progress>, outcome: Outcome<Extraction>)

  const Steps: seq<Progress> := [
    Progress("Initializing AI Models...", 10),
    Progress("Extracting Financial Data via OCR...", 30),
    Progress("Processing & Validating Response...", 60),
    Progress("Performing Financial Ratios & Trend Analysis...", 70),
    Progress("Scanning verified news sources & Calculating Sentiment...", 85),
    Progress("Finalizing Analysis...", 100)]

  const SafetyMessage: string := "The request was blocked due to safety settings. Please check the content."
  const EmptyMessage: string := "Received an empty response from the model. The document might be unreadable or not contain financial data."

  /** `response.candidates?.[0]`. */
  function FirstCandidate(response: ModelResponse): Option<Candidate> {
    if response.candidates.Some? && |response.candidates.value| > 0 then Some(response.candidates.value[0])
    else None
  }

  /** `response.candidates?.[0]?.finishReason === 'SAFETY'`. */
  predicate SafetyBlocked(response: ModelResponse) {
    var c := FirstCandidate(response);
    c.Some? && c.value.finishReason == Some("SAFETY")
  }

  /** `!response.text`. */
  predicate Blank(response: ModelResponse) {
    response.text.None? || response.text.value == []
  }

  /** The error thrown for a blank reply. */
  function BlankReplyError(response: ModelResponse): (message: string)
    ensures message == SafetyMessage <==> SafetyBlocked(response)
    ensures message == EmptyMessage <==> !SafetyBlocked(response)
  {
    if SafetyBlocked(response) then SafetyMessage else EmptyMessage
  }

  /** The grounding sources of the first candidate. */
  function ResponseSources(response: ModelResponse): (sources: seq<Types.GroundingSource>)
    ensures forall s :: s in sources ==> Grounding.Shown(s)
  {
    var c := FirstCandidate(response);
    var metadata := if c.Some? then c.value.groundingMetadata else None;
    if metadata.Some? && metadata.value.groundingChunks.Some? then
      Grounding.KeepShown(metadata.value.groundingChunks.value);
      Grounding.SourcesFrom(metadata)
    else Grounding.SourcesFrom(metadata)
  }

  /** The steps after a successful parse: sources, news, merge. */
  function Finish(parsed: Json, response: ModelResponse, env: Environment): (e: Extraction)
    requires ResponseParser.Complete(parsed)
    ensures ResponseParser.Complete(e.analysis)
    ensures e.sources == ResponseSources(response)
  {
    var ticker := Member(Some(parsed), "tickerSymbol");
    var name := Member(Some(parsed), "companyName");
    var events := NewsService.FetchCompanyNews(env.newsApiKey, ticker, name, env.numberText, env.fetchNews);
    NewsMerge.MergeKeepsValid(parsed, events, env.numberText);
    Extraction(NewsMerge.MergeNews(parsed, events, env.numberText), ResponseSources(response))
  }

  /** The whole run. Progress is always a non-empty prefix of `Steps`; the
      run returns exactly when all six steps were announced, and what it
      returns passes validation. */
  function ExtractData(env: Environment): (run: Run)
    ensures 1 <= |run.progress| <= |Steps| && run.progress == Steps[..|run.progress|]
    ensures run.outcome.Returned? <==> |run.progress| == |Steps|
    ensures run.outcome.Returned? ==> ResponseParser.Complete(run.outcome.value.analysis)
    ensures env.readFile.Threw? ==> run == Run(Steps[..1], Threw(env.readFile.thrown))
  {
    match env.readFile
    case Threw(t) => Run(Steps[..1], Threw(t))
    case Returned(data) =>
      match env.generate(data)
      case Threw(t) => Run(Steps[..2], Threw(t))
      case Returned(response) =>
        if Blank(response) then
          Run(Steps[..3], Threw(ErrorThrown(BlankReplyError(response))))
        else
          match ResponseParser.ParseResponse(response.text.value, env.parse)
          case Err(message) => Run(Steps[..4], Threw(ErrorThrown(message)))
          case Ok(parsed) => Run(Steps, Returned(Finish(parsed, response, env)))
  }

  /** The announced percentages rise strictly and end at 100. */
  lemma ProgressRises(run: Run, env: Environment)
    requires run == ExtractData(env)
    ensures forall i, j :: 0 <= i < j < |run.progress| ==> run.progress[i].percent < run.progress[j].percent
    ensures run.progress[|run.progress| - 1].percent == 100 <==> run.outcome.Returned?
  {
    PrefixRises(run.progress);
  }

  /** The same for any non-empty prefix of the steps. */
  lemma PrefixRises(ps: seq<Progress>)
    requires 1 <= |ps| <= |Steps| && ps == Steps[..|ps|]
    ensures forall i, j :: 0 <= i < j < |ps| ==> ps[i].percent < ps[j].percent
    ensures ps[|ps| - 1].percent == 100 <==> |ps| == |Steps|
  {
    var n := |ps|;
    forall i, j | 0 <= i < j < n ensures ps[i].percent < ps[j].percent {
      assert ps[i] == Steps[i] && ps[j] == Steps[j];
    }
    assert ps[n - 1] == Steps[n - 1];
  }

  /** A blank reply stops the run at 60 with the safety message exactly when
      the first candidate was blocked for safety, and with the empty-reply
      message otherwise. */
  lemma BlankReplyStopsAtSixty(env: Environment, data: string, response: ModelResponse)
    requires env.readFile == Returned(data) && env.generate(data) == Returned(response)
    requires Blank(response)
    ensures var run := ExtractData(env);
            && run.progress[|run.progress| - 1].percent == 60
            && run.outcome.Threw? && run.outcome.thrown.ErrorThrown?
            && (run.outcome.thrown.message == SafetyMessage <==> SafetyBlocked(response))
            && (run.outcome.thrown.message == EmptyMessage <==> !SafetyBlocked(response))
  {
  }

  /** A reply that does not parse or validate stops the run at 70 with the
      parse error; no sources are collected and no news is fetched. */
  lemma BadReplyStopsAtSeventy(env: Environment, data: string, response: ModelResponse)
    requires env.readFile == Returned(data) && env.generate(data) == Returned(response)
    requires !Blank(response) && ResponseParser.ParseResponse(response.text.value, env.parse).Err?
    ensures var run := ExtractData(env);
            && run.progress == Steps[..4]
            && run.outcome == Threw(ErrorThrown(ResponseParser.ParseFailure))
  {
  }

  /** A reply that parses and validates runs all six steps and finishes. */
  lemma ParsedReplyFinishes(env: Environment, data: string, response: ModelResponse, parsed: Json)
    requires env.readFile == Returned(data) && env.generate(data) == Returned(response)
    requires !Blank(response) && ResponseParser.ParseResponse(response.text.value, env.parse) == Ok(parsed)
    ensures ResponseParser.Complete(parsed)
    ensures ExtractData(env) == Run(Steps, Returned(Finish(parsed, response, env)))
  {
  }

  /** End to end on a typed result: a reply that wraps the JSON of `r` in a
      fenced block between prose returns exactly that JSON (with the news
      merged in when the provider has any) and the first candidate's sources,
      provided the three guarded strings are non-empty. */
  lemma FencedReplyExtracted(env: Environment, data: string, response: ModelResponse,
                             pre: string, body: string, post: string, r: Types.AnalysisResult)
    requires env.readFile == Returned(data) && env.generate(data) == Returned(response)
    requires response.text == Some(pre + ResponseParser.Fence + body + ResponseParser.Close + post)
    requires forall k: nat :: k < |pre| ==> !Strings.MatchAt(pre + ResponseParser.Fence, ResponseParser.Fence, k)
    requires forall k: nat :: k < |body| ==> !Strings.MatchAt(body + ResponseParser.Close, ResponseParser.Close, k)
    requires env.parse(Strings.Trim(body)) == Some(Types.Encode(r))
    requires r.companyName != "" && r.financialsLocal.unit != "" && r.analysis.ratioAnalysis.summary != ""
    ensures var run := ExtractData(env);
            var ticker := Member(Some(Types.Encode(r)), "tickerSymbol");
            var events := NewsService.FetchCompanyNews(env.newsApiKey, ticker, Some(JStr(r.companyName)),
                                                       env.numberText, env.fetchNews);
            var expected := if events == [] then Types.Encode(r)
                            else Types.Encode(r.(analysis := r.analysis.(newsAnalysis :=
                                   Some(Types.NewsAnalysis(events, NewsMerge.NewsSummary(r.companyName))))));
            run == Run(Steps, Returned(Extraction(expected, ResponseSources(response))))
  {
    var text := pre + ResponseParser.Fence + body + ResponseParser.Close + post;
    ResponseParser.FencedReplyInProse(pre, body, post);
    ResponseParser.ValidateEncoded(r);
    assert ResponseParser.ParseResponse(text, env.parse) == Ok(Types.Encode(r));
    assert |text| > 0;
    ParsedReplyFinishes(env, data, response, Types.Encode(r));
    NewsMerge.NameAt(r);
    var ticker := Member(Some(Types.Encode(r)), "tickerSymbol");
    var events := NewsService.FetchCompanyNews(env.newsApiKey, ticker, Some(JStr(r.companyName)),
                                               env.numberText, env.fetchNews);
    if events != [] {
      NewsMerge.MergeEncoded(r, events, env.numberText);
    }
  }
}
