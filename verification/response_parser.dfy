/** Turning the model's reply text into a validated analysis
    (`parseJsonResponse` in hooks/useFinancialDataExtractor.ts).

    The reply may wrap the JSON in a markdown code fence. The source finds it
    with the regular expression /```json\s*([\s\S]*?)\s*```/ and trims the
    captured group. That expression matches exactly when the first "```json"
    in the text is followed, anywhere later, by "```"; the trimmed group is
    then the trimmed text between that "```json" and the first "```" after it,
    which is what `ExtractPayload` computes. `JSON.parse` is a parameter. */
module ResponseParser {
  import opened Outcomes
  import opened Strings
  import opened JsValues
  import Types

  const Fence: string := "```json"
  const Close: string := "```"

  /** The single error for every parse or validation failure. */
  const ParseFailure: string := "Could not parse the financial analysis from the model's response. The document might not be a compatible financial statement."

  /** The reply holds a "```json" that some later "```" closes. */
  predicate HasFencedBlock(text: string) {
    var open := IndexFrom(text, Fence, 0);
    open.Some? && IndexFrom(text, Close, open.value + |Fence|).Some?
  }

  /** The text that is handed to `JSON.parse`: the trimmed content of the
      fenced block when there is one, otherwise the whole trimmed reply. */
  function ExtractPayload(text: string): (payload: string)
    ensures Trimmed(payload)
    ensures !HasFencedBlock(text) ==> payload == Trim(text)
    ensures HasFencedBlock(text) ==> !Includes(payload, Close)
  {
    match IndexFrom(text, Fence, 0)
    case None => Trim(text)
    case Some(open) =>
      match IndexFrom(text, Close, open + |Fence|)
      case None => Trim(text)
      case Some(close) =>
        var inner := text[open + |Fence|..close];
        var payload := Trim(inner);
        InfixAvoidsMatch(text, Close, open + |Fence|, close, payload);
        payload
  }

  /** A trimmed slice of a region that holds no occurrence of `pat` holds none either. */
  lemma InfixAvoidsMatch(s: string, pat: string, lo: nat, hi: nat, p: string)
    requires lo <= hi <= |s| && |pat| > 0
    requires forall k :: lo <= k < hi ==> !MatchAt(s, pat, k)
    requires p == Trim(s[lo..hi])
    ensures !Includes(p, pat)
  {
    var u := s[lo..hi];
    var (b, e) := TrimBounds(u);
    assert p == u[b..e];
    forall k: nat | MatchAt(p, pat, k)
      ensures MatchAt(s, pat, lo + b + k) && lo <= lo + b + k < hi
    {
      MatchInTrimmed(s, lo, hi, b, e, p, pat, k);
    }
  }

  lemma MatchInTrimmed(s: string, lo: nat, hi: nat, b: nat, e: nat, p: string, pat: string, k: nat)
    requires lo <= hi <= |s| && b <= e <= hi - lo && |pat| > 0
    requires p == s[lo..hi][b..e] && MatchAt(p, pat, k)
    ensures MatchAt(s, pat, lo + b + k) && lo <= lo + b + k < hi
  {
    assert |p| == e - b;
    SliceOfSlice(s, lo, hi, b, e);
    assert p == s[lo + b..lo + e];
    SliceOfSlice(s, lo + b, lo + e, k, k + |pat|);
  }

  /** Prose around a fenced block is ignored: when "```json" first occurs at
      `open` and "```" first occurs after it at `close`, the payload is the
      trimmed text strictly between the two, whatever precedes or follows. */
  lemma FencedReply(text: string, open: nat, close: nat)
    requires MatchAt(text, Fence, open) && forall k: nat :: k < open ==> !MatchAt(text, Fence, k)
    requires open + |Fence| <= close && MatchAt(text, Close, close)
    requires forall k :: open + |Fence| <= k < close ==> !MatchAt(text, Close, k)
    ensures ExtractPayload(text) == Trim(text[open + |Fence|..close])
  {
    FirstMatch(text, Fence, 0, open);
    FirstMatch(text, Close, open + |Fence|, close);
  }

  /** The same for a reply written as prose, a fenced block and more prose:
      when `pre` holds no "```json" of its own and `body` no "```", the
      payload is the trimmed body. */
  lemma FencedReplyInProse(pre: string, body: string, post: string)
    requires forall k: nat :: k < |pre| ==> !MatchAt(pre + Fence, Fence, k)
    requires forall k: nat :: k < |body| ==> !MatchAt(body + Close, Close, k)
    ensures ExtractPayload(pre + Fence + body + Close + post) == Trim(body)
  {
    MarkersAround(pre, Fence, body, Close, post);
    PayloadBetween(pre + Fence + body + Close + post, |pre|, |pre| + |Fence| + |body|, body);
  }

  lemma PayloadBetween(text: string, open: nat, close: nat, body: string)
    requires MatchAt(text, Fence, open) && (forall k: nat :: k < open ==> !MatchAt(text, Fence, k))
    requires MatchAt(text, Close, close) && (forall k :: open + |Fence| <= k < close ==> !MatchAt(text, Close, k))
    requires open + |Fence| <= close && text[open + |Fence|..close] == body
    ensures ExtractPayload(text) == Trim(body)
  {
    FencedReply(text, open, close);
  }

  /** Where an opening and a closing marker sit in prose, a block and more
      prose, when neither marker occurs earlier than placed. */
  lemma MarkersAround(pre: string, openMark: string, body: string, closeMark: string, post: string)
    requires forall k: nat :: k < |pre| ==> !MatchAt(pre + openMark, openMark, k)
    requires forall k: nat :: k < |body| ==> !MatchAt(body + closeMark, closeMark, k)
    ensures var text := pre + openMark + body + closeMark + post;
            var o, c := |pre|, |pre| + |openMark| + |body|;
            && MatchAt(text, openMark, o) && (forall k: nat :: k < o ==> !MatchAt(text, openMark, k))
            && MatchAt(text, closeMark, c) && (forall k :: o + |openMark| <= k < c ==> !MatchAt(text, closeMark, k))
            && text[o + |openMark|..c] == body
  {
    var head := pre + openMark;
    var tail := body + closeMark;
    var text := head + (tail + post);
    assert pre + openMark + body + closeMark + post == text;
    OpenMarkFirst(pre, openMark, tail + post);
    CloseMarkFirst(head, body, closeMark, post);
    assert text[|head|..|head| + |body|] == body;
  }

  lemma OpenMarkFirst(pre: string, openMark: string, rest: string)
    requires forall k: nat :: k < |pre| ==> !MatchAt(pre + openMark, openMark, k)
    ensures MatchAt((pre + openMark) + rest, openMark, |pre|)
    ensures forall k: nat :: k < |pre| ==> !MatchAt((pre + openMark) + rest, openMark, k)
  {
    forall k: nat | k < |pre| ensures !MatchAt((pre + openMark) + rest, openMark, k) {
      MatchInPrefix(pre + openMark, rest, openMark, k);
    }
    MatchInPrefix(pre + openMark, rest, openMark, |pre|);
    assert (pre + openMark)[|pre|..] == openMark;
  }

  lemma CloseMarkFirst(head: string, body: string, closeMark: string, post: string)
    requires forall k: nat :: k < |body| ==> !MatchAt(body + closeMark, closeMark, k)
    ensures MatchAt(head + ((body + closeMark) + post), closeMark, |head| + |body|)
    ensures forall k :: |head| <= k < |head| + |body| ==> !MatchAt(head + ((body + closeMark) + post), closeMark, k)
  {
    var tail := body + closeMark;
    forall k | |head| <= k < |head| + |body| ensures !MatchAt(head + (tail + post), closeMark, k) {
      MatchInSuffix(head, tail + post, closeMark, k - |head|);
      MatchInPrefix(tail, post, closeMark, k - |head|);
    }
    MatchInSuffix(head, tail + post, closeMark, |body|);
    MatchInPrefix(tail, post, closeMark, |body|);
    assert tail[|body|..] == closeMark;
  }

  /** A match that ends inside the left operand of a concatenation. */
  lemma MatchInPrefix(a: string, b: string, pat: string, k: nat)
    requires k + |pat| <= |a|
    ensures MatchAt(a + b, pat, k) == MatchAt(a, pat, k)
  {
    assert (a + b)[k..k + |pat|] == a[k..k + |pat|];
  }

  /** A match that starts inside the right operand of a concatenation. */
  lemma MatchInSuffix(a: string, b: string, pat: string, k: nat)
    ensures MatchAt(a + b, pat, |a| + k) == MatchAt(b, pat, k)
  {
    if |a| + k + |pat| <= |a + b| {
      assert (a + b)[|a| + k..|a| + k + |pat|] == b[k..k + |pat|];
    }
  }

  /** The shape the validation guard demands: a truthy company name, a truthy
      local unit, a truthy ratio summary and an array of chart points
      (`analysis.trendAnalysis.chartData`). */
  predicate Complete(j: Json) {
    var analysis := Member(Some(j), "analysis");
    var chartData := Member(Member(analysis, "trendAnalysis"), "chartData");
    && Truthy(Member(Some(j), "companyName"))
    && Truthy(Member(Member(Some(j), "financialsLocal"), "unit"))
    && Truthy(Member(Member(analysis, "ratioAnalysis"), "summary"))
    && chartData.Some? && chartData.value.JArr?
  }

  /** The revenue clause `!parsed.financialsLocal?.revenue === undefined` as
      written: the negation binds first, so a boolean is compared with
      `undefined` and the clause never rejects anything. */
  function RevenueGuard(revenue: Option<Json>): (rejects: bool)
    ensures !rejects
  {
    var negated: Option<Json> := Some(JBool(!Truthy(revenue)));
    negated == None
  }

  /** The validation guard, clause by clause. A `null` document makes the
      first read throw a TypeError, which the same handler turns into the same
      error. The parsed value itself is the result: nothing is converted. */
  function Validate(parsed: Json): (r: Result<Json>)
    ensures r.Ok? ==> r.value == parsed
    ensures r.Err? ==> r.message == ParseFailure
    ensures r.Ok? <==> Complete(parsed)
  {
    if parsed.JNull? then Err(ParseFailure)
    else
      var root := Some(parsed);
      var local := Member(root, "financialsLocal");
      var analysis := Member(root, "analysis");
      var chartData := Member(Member(analysis, "trendAnalysis"), "chartData");
      if || !Truthy(Member(root, "companyName"))
         || RevenueGuard(Member(local, "revenue"))
         || !Truthy(Member(local, "unit"))
         || !Truthy(Member(Member(analysis, "ratioAnalysis"), "summary"))
         || !Truthy(chartData)
         || !chartData.value.JArr?
      then Err(ParseFailure)
      else Ok(parsed)
  }

  /** `parseJsonResponse`: extract, parse, validate; any failure is the one
      `ParseFailure` error and yields no value. */
  function ParseResponse(text: string, parse: string -> Option<Json>): (r: Result<Json>)
    ensures r.Err? ==> r.message == ParseFailure
    ensures r.Ok? ==> parse(ExtractPayload(text)) == Some(r.value) && Complete(r.value)
    ensures parse(ExtractPayload(text)).None? ==> r.Err?
    ensures r.Ok? <==> parse(ExtractPayload(text)).Some? && Complete(parse(ExtractPayload(text)).value)
    ensures parse(ExtractPayload(text)).Some? && Complete(parse(ExtractPayload(text)).value) ==>
              r == Ok(parse(ExtractPayload(text)).value)
  {
    match parse(ExtractPayload(text))
    case None => Err(ParseFailure)
    case Some(j) => Validate(j)
  }

  /** A reply without a fence whose text is not JSON fails with the parse
      error and produces no analysis. */
  lemma MalformedUnfencedReply(text: string, parse: string -> Option<Json>)
    requires !Includes(text, Fence)
    requires parse(Trim(text)).None?
    ensures ParseResponse(text, parse) == Err(ParseFailure)
  {
  }

  /** Validation ignores `financialsLocal.revenue` entirely: setting it to any
      value, zero included, or deleting it never changes the verdict. */
  lemma RevenueNotValidated(top: seq<Field>, local: seq<Field>, revenue: Option<Json>)
    requires Lookup(top, "financialsLocal") == Some(JObj(local))
    ensures var local' := if revenue.Some? then Put(local, "revenue", revenue.value) else Remove(local, "revenue");
            Validate(JObj(Put(top, "financialsLocal", JObj(local')))).Ok? == Validate(JObj(top)).Ok?
  {
    var local' := if revenue.Some? then Put(local, "revenue", revenue.value) else Remove(local, "revenue");
    var top' := Put(top, "financialsLocal", JObj(local'));
    assert Lookup(local', "unit") == Lookup(local, "unit");
    assert Lookup(top', "financialsLocal") == Some(JObj(local'));
    assert Lookup(top', "companyName") == Lookup(top, "companyName");
    assert Lookup(top', "analysis") == Lookup(top, "analysis");
    SameGuardedPaths(JObj(top'), JObj(top));
  }

  /** `Complete` reads only the company name, the local unit and the
      ratio and trend parts of the analysis. */
  lemma SameGuardedPaths(j1: Json, j2: Json)
    requires Member(Some(j1), "companyName") == Member(Some(j2), "companyName")
    requires Member(Member(Some(j1), "financialsLocal"), "unit") == Member(Member(Some(j2), "financialsLocal"), "unit")
    requires Member(Member(Some(j1), "analysis"), "ratioAnalysis") == Member(Member(Some(j2), "analysis"), "ratioAnalysis")
    requires Member(Member(Some(j1), "analysis"), "trendAnalysis") == Member(Member(Some(j2), "analysis"), "trendAnalysis")
    ensures Complete(j1) == Complete(j2)
  {
  }

  /** Where validation looks in an encoded result: the local financials sit
      fifth, after four differently named properties. */
  lemma EncodedLocal(r: Types.AnalysisResult)
    ensures Member(Some(Types.Encode(r)), "financialsLocal") == Some(Types.EncodeFinancials(r.financialsLocal))
  {
    var fields := Types.Encode(r).fields;
    assert fields[0].key == "companyName" && fields[1].key == "tickerSymbol" && fields[2].key == "currency";
    assert fields[3].key == "mostRecentYear" && fields[4].key == "financialsLocal";
    LookupAt(fields, 4, "financialsLocal");
  }

  lemma EncodedUnit(r: Types.AnalysisResult)
    ensures Member(Member(Some(Types.Encode(r)), "financialsLocal"), "unit") == Some(JStr(r.financialsLocal.unit))
  {
    EncodedLocal(r);
    FinancialsUnit(r.financialsLocal);
    MemberOfMember(Types.Encode(r), "financialsLocal", Types.EncodeFinancials(r.financialsLocal), "unit",
                   JStr(r.financialsLocal.unit));
  }

  lemma FinancialsUnit(fin: Types.Financials)
    ensures Member(Some(Types.EncodeFinancials(fin)), "unit") == Some(JStr(fin.unit))
  {
    var f := Types.EncodeFinancials(fin).fields;
    assert f[0].key == "revenue" && f[1].key == "cogs" && f[2].key == "opex" && f[3].key == "unit";
    LookupAt(f, 3, "unit");
  }

  /** A read two properties deep, one step at a time. */
  lemma MemberOfMember(j: Json, outer: string, inner: Json, key: string, v: Json)
    requires Member(Some(j), outer) == Some(inner) && Member(Some(inner), key) == Some(v)
    ensures Member(Member(Some(j), outer), key) == Some(v)
  {
  }

  /** The analysis follows the local financials and the optional USD ones. */
  lemma EncodedAnalysis(r: Types.AnalysisResult)
    ensures Member(Some(Types.Encode(r)), "analysis") == Some(Types.EncodeAnalysis(r.analysis))
  {
    var fields := Types.Encode(r).fields;
    assert fields[0].key == "companyName" && fields[1].key == "tickerSymbol" && fields[2].key == "currency";
    assert fields[3].key == "mostRecentYear" && fields[4].key == "financialsLocal";
    if r.financialsUSD.Some? {
      assert fields[5].key == "financialsUSD" && fields[6].key == "analysis";
      LookupAt(fields, 6, "analysis");
    } else {
      assert fields[5].key == "analysis";
      LookupAt(fields, 5, "analysis");
    }
  }

  lemma EncodedRatioSummary(a: Types.Analysis)
    ensures Member(Member(Some(Types.EncodeAnalysis(a)), "ratioAnalysis"), "summary") == Some(JStr(a.ratioAnalysis.summary))
  {
    var f := Types.EncodeAnalysis(a).fields;
    assert f[0].key == "ratioAnalysis";
    assert Types.EncodeRatioAnalysis(a.ratioAnalysis).fields[0].key == "summary";
  }

  lemma EncodedChartData(a: Types.Analysis)
    ensures Member(Member(Some(Types.EncodeAnalysis(a)), "trendAnalysis"), "chartData")
            == Some(JArr(Types.EncodeChartData(a.trendAnalysis.chartData)))
  {
    var f := Types.EncodeAnalysis(a).fields;
    assert f[0].key == "ratioAnalysis" && f[1].key == "trendAnalysis";
    LookupAt(f, 1, "trendAnalysis");
    var t := Types.EncodeTrendAnalysis(a.trendAnalysis).fields;
    assert t[0].key == "summary" && t[1].key == "chartData";
    LookupAt(t, 1, "chartData");
  }

  lemma EncodedName(r: Types.AnalysisResult)
    ensures Member(Some(Types.Encode(r)), "companyName") == Some(JStr(r.companyName))
  {
    var fields := Types.Encode(r).fields;
    assert fields[0] == Field("companyName", JStr(r.companyName));
    LookupAt(fields, 0, "companyName");
  }

  /** `Complete` on a value whose checked paths hold the given strings and
      an array. */
  lemma CompleteFromPaths(j: Json, name: string, unit: string, summary: string, chart: seq<Json>)
    requires Member(Some(j), "companyName") == Some(JStr(name))
    requires Member(Member(Some(j), "financialsLocal"), "unit") == Some(JStr(unit))
    requires Member(Member(Member(Some(j), "analysis"), "ratioAnalysis"), "summary") == Some(JStr(summary))
    requires Member(Member(Member(Some(j), "analysis"), "trendAnalysis"), "chartData") == Some(JArr(chart))
    ensures Complete(j) <==> name != "" && unit != "" && summary != ""
  {
    assert Truthy(Some(JStr(name))) <==> name != "";
    assert Truthy(Some(JStr(unit))) <==> unit != "";
    assert Truthy(Some(JStr(summary))) <==> summary != "";
  }

  /** On a well-typed result, validation accepts exactly when the company
      name, the local unit and the ratio summary are non-empty; the revenue,
      zero or not, plays no part. */
  lemma ValidateEncoded(r: Types.AnalysisResult)
    ensures Validate(Types.Encode(r)).Ok? <==>
            r.companyName != "" && r.financialsLocal.unit != "" && r.analysis.ratioAnalysis.summary != ""
  {
    EncodedName(r);
    EncodedUnit(r);
    EncodedAnalysis(r);
    EncodedRatioSummary(r.analysis);
    EncodedChartData(r.analysis);
    CompleteFromPaths(Types.Encode(r), r.companyName, r.financialsLocal.unit, r.analysis.ratioAnalysis.summary,
                      Types.EncodeChartData(r.analysis.trendAnalysis.chartData));
  }
}
