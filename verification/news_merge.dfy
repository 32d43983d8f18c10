/** Merging the verified news into the parsed analysis
    (hooks/useFinancialDataExtractor.ts, the news step of `extractData`).

    When the news service returns at least one event, the analysis gets a
    `newsAnalysis` object if it has none (`{ events: [], summary: "" }`),
    whose `events` become the fetched events and whose `summary` becomes a
    fixed sentence naming the company. Nothing else in the analysis changes.
    A step that throws (a truthy `newsAnalysis` that is not an object cannot
    take properties) is caught and leaves the analysis as it was. */
module NewsMerge {
  import opened Outcomes
  import opened JsValues
  import Types
  import ResponseParser

  function NewsSummary(companyText: string): string {
    "Verified recent news retrieved for " + companyText + ". See articles below for details."
  }

  /** `newsAnalysis` after the merge, given its value before. */
  function MergedNewsAnalysis(before: Option<Json>, events: seq<Types.NewsEvent>, companyText: string): (after: Option<Json>)
    ensures after.Some? <==> !Truthy(before) || before.value.JObj?
    ensures after.Some? ==> after.value.JObj?
                            && Lookup(after.value.fields, "events") == Some(JArr(Types.EncodeNewsEvents(events)))
                            && Lookup(after.value.fields, "summary") == Some(JStr(NewsSummary(companyText)))
    ensures after.Some? && Truthy(before) ==>
              forall k :: k != "events" && k != "summary" ==> Lookup(after.value.fields, k) == Lookup(before.value.fields, k)
  {
    var base: seq<Field> :=
      if !Truthy(before) then [Field("events", JArr([])), Field("summary", JStr(""))]
      else if before.value.JObj? then before.value.fields
      else [];
    if Truthy(before) && !before.value.JObj? then None
    else
      var withEvents := Put(base, "events", JArr(Types.EncodeNewsEvents(events)));
      Some(JObj(Put(withEvents, "summary", JStr(NewsSummary(companyText)))))
  }

  /** The merge on the whole parsed result. `numberText` renders the company
      name when it is a number. */
  function MergeNews(result: Json, events: seq<Types.NewsEvent>, numberText: real -> string): (merged: Json)
    ensures events == [] ==> merged == result
    ensures merged.JObj? <==> result.JObj?
    ensures merged != result ==> events != [] && result.JObj?
    ensures result.JObj? ==> forall k :: k != "analysis" ==> Lookup(merged.fields, k) == Lookup(result.fields, k)
  {
    if events == [] then result
    else
      var analysis := Member(Some(result), "analysis");
      if analysis.None? || !analysis.value.JObj? then result
      else
        var companyText := OptText(Member(Some(result), "companyName"), numberText);
        match MergedNewsAnalysis(Lookup(analysis.value.fields, "newsAnalysis"), events, companyText)
        case None => result
        case Some(news) =>
          JObj(Put(result.fields, "analysis", JObj(Put(analysis.value.fields, "newsAnalysis", news))))
  }

  /** After a merge with events, the analysis carries them and the summary
      sentence, and keeps every other property of the analysis object. */
  lemma MergeStoresNews(result: Json, events: seq<Types.NewsEvent>, numberText: real -> string)
    requires events != [] && result.JObj?
    requires var a := Member(Some(result), "analysis");
             a.Some? && a.value.JObj? && var n := Lookup(a.value.fields, "newsAnalysis"); !Truthy(n) || n.value.JObj?
    ensures var a := Member(Some(MergeNews(result, events, numberText)), "analysis");
            var n := Member(a, "newsAnalysis");
            && Member(n, "events") == Some(JArr(Types.EncodeNewsEvents(events)))
            && Member(n, "summary") == Some(JStr(NewsSummary(OptText(Member(Some(result), "companyName"), numberText))))
    ensures var before := Member(Some(result), "analysis").value.fields;
            var after := Member(Some(MergeNews(result, events, numberText)), "analysis").value.fields;
            forall k :: k != "newsAnalysis" ==> Lookup(after, k) == Lookup(before, k)
  {
  }

  /** A validated result stays valid after the merge: the properties the
      guard reads are never touched. */
  lemma MergeKeepsValid(result: Json, events: seq<Types.NewsEvent>, numberText: real -> string)
    requires ResponseParser.Complete(result)
    ensures ResponseParser.Complete(MergeNews(result, events, numberText))
  {
    var merged := MergeNews(result, events, numberText);
    var analysis := Member(Some(result), "analysis");
    if events != [] && analysis.Some? && analysis.value.JObj? {
      var before := analysis.value.fields;
      var companyText := OptText(Member(Some(result), "companyName"), numberText);
      var news := MergedNewsAnalysis(Lookup(before, "newsAnalysis"), events, companyText);
      if news.Some? {
        var after := Put(before, "newsAnalysis", news.value);
        assert merged == JObj(Put(result.fields, "analysis", JObj(after)));
        assert Member(Some(merged), "analysis") == Some(JObj(after));
        assert Lookup(after, "ratioAnalysis") == Lookup(before, "ratioAnalysis");
        assert Lookup(after, "trendAnalysis") == Lookup(before, "trendAnalysis");
        assert Member(Some(merged), "financialsLocal") == Member(Some(result), "financialsLocal");
        ResponseParser.SameGuardedPaths(merged, result);
      }
    }
  }

  /** A truthy `newsAnalysis` that is not an object makes the assignment
      throw; the error is caught and the result is returned unchanged. */
  lemma MalformedNewsAnalysisKept(result: Json, events: seq<Types.NewsEvent>, numberText: real -> string)
    requires var a := Member(Some(result), "analysis");
             a.Some? && a.value.JObj? && var n := Lookup(a.value.fields, "newsAnalysis"); Truthy(n) && !n.value.JObj?
    ensures MergeNews(result, events, numberText) == result
  {
  }

  /** On typed results, merging commutes with the encoding: merging into the
      encoded result gives the encoding of the result whose news analysis is
      the fetched events with the summary sentence. */
  lemma MergeEncoded(r: Types.AnalysisResult, events: seq<Types.NewsEvent>, numberText: real -> string)
    requires events != []
    ensures var a := r.analysis;
            var r' := r.(analysis := a.(newsAnalysis := Some(Types.NewsAnalysis(events, NewsSummary(r.companyName)))));
            MergeNews(Types.Encode(r), events, numberText) == Types.Encode(r')
  {
    var a := r.analysis;
    var news := Types.NewsAnalysis(events, NewsSummary(r.companyName));
    var a' := a.(newsAnalysis := Some(news));
    AnalysisAt(r);
    NameAt(r);
    MergedEncodedNews(a, events, r.companyName);
    AnalysisWithNews(a, news);
    EncodedPutAnalysis(r, a');
    MergeFromParts(Types.Encode(r), events, numberText, Types.EncodeAnalysis(a), r.companyName,
                   Types.EncodeNewsAnalysis(news), Types.EncodeAnalysis(a'), Types.Encode(r.(analysis := a')));
  }

  /** The merge, given where the analysis and the name sit and what the two
      property assignments produce. */
  lemma MergeFromParts(result: Json, events: seq<Types.NewsEvent>, numberText: real -> string, analysis: Json,
                       name: string, news: Json, analysis': Json, result': Json)
    requires events != [] && result.JObj? && analysis.JObj? && analysis'.JObj? && result'.JObj?
    requires Member(Some(result), "analysis") == Some(analysis)
    requires Member(Some(result), "companyName") == Some(JStr(name))
    requires MergedNewsAnalysis(Member(Some(analysis), "newsAnalysis"), events, name) == Some(news)
    requires Put(analysis.fields, "newsAnalysis", news) == analysis'.fields
    requires Put(result.fields, "analysis", analysis') == result'.fields
    ensures MergeNews(result, events, numberText) == result'
  {
    MergeShape(result, events, numberText, analysis.fields, news);
  }

  lemma MergeShape(result: Json, events: seq<Types.NewsEvent>, numberText: real -> string, fields: seq<Field>, news: Json)
    requires events != [] && result.JObj?
    requires Member(Some(result), "analysis") == Some(JObj(fields))
    requires MergedNewsAnalysis(Lookup(fields, "newsAnalysis"), events,
                                OptText(Member(Some(result), "companyName"), numberText)) == Some(news)
    ensures MergeNews(result, events, numberText)
            == JObj(Put(result.fields, "analysis", JObj(Put(fields, "newsAnalysis", news))))
  {
  }

  /** Replacing the analysis of an encoded result in place. */
  lemma EncodedPutAnalysis(r: Types.AnalysisResult, a': Types.Analysis)
    ensures Put(Types.Encode(r).fields, "analysis", Types.EncodeAnalysis(a')) == Types.Encode(r.(analysis := a')).fields
  {
    AnalysisAt(r);
    PutExisting(Types.Encode(r).fields, AnalysisIndex(r), "analysis", Types.EncodeAnalysis(a'));
    SameOutsideAnalysis(r, r.(analysis := a'));
  }

  /** The position of `analysis` in an encoded result. */
  function AnalysisIndex(r: Types.AnalysisResult): nat {
    if r.financialsUSD.Some? then 6 else 5
  }

  lemma AnalysisAt(r: Types.AnalysisResult)
    ensures var fields := Types.Encode(r).fields;
            && AnalysisIndex(r) < |fields|
            && fields[AnalysisIndex(r)] == Field("analysis", Types.EncodeAnalysis(r.analysis))
            && (forall j :: 0 <= j < AnalysisIndex(r) ==> fields[j].key != "analysis")
            && Member(Some(Types.Encode(r)), "analysis") == Some(Types.EncodeAnalysis(r.analysis))
  {
    var fields := Types.Encode(r).fields;
    var k := AnalysisIndex(r);
    assert fields[0].key == "companyName" && fields[1].key == "tickerSymbol" && fields[2].key == "currency";
    assert fields[3].key == "mostRecentYear" && fields[4].key == "financialsLocal";
    assert k == 6 ==> fields[5].key == "financialsUSD";
    assert fields[k] == Field("analysis", Types.EncodeAnalysis(r.analysis));
    LookupAt(fields, k, "analysis");
  }

  lemma NameAt(r: Types.AnalysisResult)
    ensures Member(Some(Types.Encode(r)), "companyName") == Some(JStr(r.companyName))
  {
  }

  /** Only the analysis entry differs between two results that differ only in
      their analysis. */
  lemma SameOutsideAnalysis(r: Types.AnalysisResult, r': Types.AnalysisResult)
    requires r' == r.(analysis := r'.analysis)
    ensures Types.Encode(r').fields
            == Types.Encode(r).fields[AnalysisIndex(r) := Field("analysis", Types.EncodeAnalysis(r'.analysis))]
  {
  }

  /** A missing news analysis is created and filled. */
  lemma NewsCreated(events: seq<Types.NewsEvent>, companyText: string)
    ensures MergedNewsAnalysis(None, events, companyText)
            == Some(Types.EncodeNewsAnalysis(Types.NewsAnalysis(events, NewsSummary(companyText))))
  {
    var evs := JArr(Types.EncodeNewsEvents(events));
    var sum := JStr(NewsSummary(companyText));
    var base := [Field("events", JArr([])), Field("summary", JStr(""))];
    PutExisting(base, 0, "events", evs);
    var base' := base[0 := Field("events", evs)];
    PutExisting(base', 1, "summary", sum);
    assert base'[1 := Field("summary", sum)] == [Field("events", evs), Field("summary", sum)];
  }

  /** An existing news analysis has both of its properties overwritten. */
  lemma NewsReplaced(previous: Types.NewsAnalysis, events: seq<Types.NewsEvent>, companyText: string)
    ensures MergedNewsAnalysis(Some(Types.EncodeNewsAnalysis(previous)), events, companyText)
            == Some(Types.EncodeNewsAnalysis(Types.NewsAnalysis(events, NewsSummary(companyText))))
  {
    var evs := JArr(Types.EncodeNewsEvents(events));
    var sum := JStr(NewsSummary(companyText));
    var nf := Types.EncodeNewsAnalysis(previous).fields;
    PutExisting(nf, 0, "events", evs);
    var nf' := nf[0 := Field("events", evs)];
    PutExisting(nf', 1, "summary", sum);
    assert nf'[1 := Field("summary", sum)] == [Field("events", evs), Field("summary", sum)];
  }

  /** The news analysis an encoded analysis receives. */
  lemma MergedEncodedNews(a: Types.Analysis, events: seq<Types.NewsEvent>, companyText: string)
    ensures MergedNewsAnalysis(Member(Some(Types.EncodeAnalysis(a)), "newsAnalysis"), events, companyText)
            == Some(Types.EncodeNewsAnalysis(Types.NewsAnalysis(events, NewsSummary(companyText))))
  {
    EncodedNewsAt(a);
    if a.newsAnalysis.Some? {
      NewsReplaced(a.newsAnalysis.value, events, companyText);
    } else {
      NewsCreated(events, companyText);
    }
  }

  /** Where an encoded analysis keeps its news analysis, if it has one. */
  lemma EncodedNewsAt(a: Types.Analysis)
    ensures Member(Some(Types.EncodeAnalysis(a)), "newsAnalysis")
            == if a.newsAnalysis.Some? then Some(Types.EncodeNewsAnalysis(a.newsAnalysis.value)) else None
  {
    var af := Types.EncodeAnalysis(a).fields;
    assert af[0].key == "ratioAnalysis" && af[1].key == "trendAnalysis";
    if a.newsAnalysis.Some? {
      LookupAt(af, 2, "newsAnalysis");
    } else {
      assert Keys(af) == ["ratioAnalysis", "trendAnalysis"];
    }
  }

  /** Putting a news analysis into an encoded analysis gives the encoding of
      the analysis that holds it. */
  lemma AnalysisWithNews(a: Types.Analysis, news: Types.NewsAnalysis)
    ensures Put(Types.EncodeAnalysis(a).fields, "newsAnalysis", Types.EncodeNewsAnalysis(news))
            == Types.EncodeAnalysis(a.(newsAnalysis := Some(news))).fields
  {
    var af := Types.EncodeAnalysis(a).fields;
    var n := Types.EncodeNewsAnalysis(news);
    if a.newsAnalysis.Some? {
      assert af[0].key == "ratioAnalysis" && af[1].key == "trendAnalysis" && af[2].key == "newsAnalysis";
      PutExisting(af, 2, "newsAnalysis", n);
    } else {
      assert Keys(af) == ["ratioAnalysis", "trendAnalysis"];
      PutFresh(af, "newsAnalysis", n);
    }
  }
}
