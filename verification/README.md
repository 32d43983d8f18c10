# Financial statement analyser: a Dafny model of its core

The application takes an uploaded financial statement, asks a generative
model for a JSON analysis of it, validates the reply, collects the model's
citation sources, optionally enriches the result with verified news from the
Alpha Vantage NEWS_SENTIMENT endpoint, and shows everything on a dashboard
from which it can be exported as CSV. This project models that core as pure
functions over immutable values and proves what each step promises.

| file | module | models |
|---|---|---|
| `outcomes.dfy` | `Outcomes` | `Option`, `Result`, and `Outcome` (a value or a thrown `Error`/non-`Error`) |
| `strings.dfy` | `Strings` | the JavaScript string operations used: `trim`, searching, `includes`, `toLowerCase`, `substring`, `join`, `split` |
| `json.dfy` | `JsValues` | parsed JSON values, truthiness, property lookup and assignment in insertion order, `String(v)` |
| `types.dfy` | `Types` | the records of `types.ts` and their encoding as JSON |
| `response_parser.dfy` | `ResponseParser` | `parseJsonResponse`: fence extraction, the validation guard, the single parse error |
| `grounding.dfy` | `Grounding` | the citation filter over the first candidate's grounding chunks |
| `uri_component.dfy` | `UriComponent` | `encodeURIComponent` (UTF-8, percent-encoding) and its inverse |
| `news_service.dfy` | `NewsService` | `fetchCompanyNews`: guards, request URL, reply classification, item mapping, the first five items |
| `news_merge.dfy` | `NewsMerge` | the merge of verified news into the parsed result |
| `extractor.dfy` | `Extractor` | `extractData`: the stages, the progress calls 10, 30, 60, 70, 85, 100, and where a failure stops the run |
| `csv_export.dfy` | `CsvExport` | `flattenObject` and the CSV text of `exportToCSV` |
| `dashboard.dfy` | `Dashboard` | the dashboard's helpers: unit abbreviation, ratio text, local/USD choice, derived profits, clamped flow links, trend-chart rows, citations |
| `app_state.dfy` | `App` | the page state, `handleFileSelect`, `handleReset` and the choice of view |

The parsed reply stays an untyped `Json` value through the pipeline, as it
does in the code, which only casts it. `Types.Encode` relates it to the typed
records: the lemmas `ResponseParser.ValidateEncoded`,
`NewsMerge.MergeEncoded` and `Extractor.FencedReplyExtracted` state what
happens to a reply that is the encoding of a well-typed result. The
dashboard works on the typed records.

Everything outside the modelled code is a parameter:
- reading the file, the model call and `JSON.parse`;
- the news API key and the news request;
- `JSON.stringify`, number-to-text conversion and `Intl.NumberFormat`;
- the host name of a URL.

Three behaviours of the code are easy to misread; the model follows the code:
- Revenue is never checked. The clause `!parsed.financialsLocal?.revenue === undefined`
  (hooks/useFinancialDataExtractor.ts:28) compares a boolean with `undefined`,
  so it never rejects anything (`ResponseParser.RevenueGuard`,
  `ResponseParser.RevenueNotValidated`). `cogs` and `opex` are not checked either.
- Text that is not JSON and JSON that lacks a required field end the same way:
  the `catch` at hooks/useFinancialDataExtractor.ts:37-40 turns both into one
  error with one message (`ResponseParser.ParseFailure`).
- When the model's `newsAnalysis` is a truthy non-object (a string, a number,
  `true`), the property assignments at hooks/useFinancialDataExtractor.ts:113-118
  throw in module (strict) code. The `catch` at :119-121 swallows the throw, so
  the result is left unchanged (`NewsMerge.MalformedNewsAnalysisKept`).

## Model

| member | source | states |
|---|---|---|
| `ResponseParser.ExtractPayload` | hooks/useFinancialDataExtractor.ts:19-21 | the text handed to `JSON.parse` is trimmed; without a closed "```json" fence it is the whole reply trimmed, and with one it never contains the closing fence |
| `ResponseParser.FencedReply` | hooks/useFinancialDataExtractor.ts:19-21 | when "```json" first occurs at `open` and "```" first occurs after it at `close`, the payload is exactly the trimmed text between them, whatever surrounds them |
| `ResponseParser.FencedReplyInProse` | hooks/useFinancialDataExtractor.ts:19-21 | prose, a fenced block and more prose: the payload is the trimmed block, the prose is ignored |
| `ResponseParser.RevenueGuard` | hooks/useFinancialDataExtractor.ts:28 | the revenue clause as written never rejects, for any value or for none |
| `ResponseParser.Validate` | hooks/useFinancialDataExtractor.ts:26-35 | validation accepts exactly the values with a truthy company name, unit and ratio summary and a chart-data array, returns the value itself, and fails only with the one parse error |
| `ResponseParser.RevenueNotValidated` | hooks/useFinancialDataExtractor.ts:28 | changing or removing `financialsLocal.revenue` never changes the validation verdict |
| `ResponseParser.SameGuardedPaths` | hooks/useFinancialDataExtractor.ts:26-33 | two values that agree on the checked paths get the same verdict: nothing else is read |
| `ResponseParser.ValidateEncoded` | hooks/useFinancialDataExtractor.ts:26-35 | the encoding of a typed result passes exactly when its company name, local unit and ratio summary are non-empty |
| `ResponseParser.ParseResponse` | hooks/useFinancialDataExtractor.ts:17-41 | the reply succeeds exactly when its payload parses to a value that passes validation, and then the result is that value; a payload that does not parse, or a value that fails validation, gives the single parse error and no value |
| `ResponseParser.MalformedUnfencedReply` | hooks/useFinancialDataExtractor.ts:21-40 | an unfenced reply that is not JSON fails with the parse error |
| `Grounding.SourceOf` | hooks/useFinancialDataExtractor.ts:93-99 | a citable chunk becomes `{web: {uri, title}}` with the chunk's own URI and title |
| `Grounding.MapChunks` | hooks/useFinancialDataExtractor.ts:91-102 | one entry per chunk, in order: the source for a citable chunk, `null` for any other |
| `Grounding.DropNulls` | hooks/useFinancialDataExtractor.ts:103 | a source is kept exactly when it occurs as a non-`null` entry, and the list never grows |
| `Grounding.DropNullsAppend` | hooks/useFinancialDataExtractor.ts:103 | the filter keeps order: filtering two lists joined gives the two filtered lists joined |
| `Grounding.ExtractSources` | hooks/useFinancialDataExtractor.ts:91-103 | no more sources than chunks |
| `Grounding.SourcesFrom` | hooks/useFinancialDataExtractor.ts:88-104 | no sources without metadata or without a chunk list; otherwise the citable chunks converted, in order |
| `Grounding.KeepIsExtract` | hooks/useFinancialDataExtractor.ts:91-103 | mapping to `null` and filtering equals keeping the citable chunks (the reference definition) |
| `Grounding.KeepAppend` | hooks/useFinancialDataExtractor.ts:91-103 | the filter preserves order: the sources of two chunk lists joined are the two source lists joined |
| `Grounding.KeepShown` | hooks/useFinancialDataExtractor.ts:93 | every kept source has a non-empty URI and a non-empty title |
| `Grounding.KeepMembers` | hooks/useFinancialDataExtractor.ts:91-103 | a source is kept exactly when some citable chunk yields it |
| `Grounding.KeepLength` | hooks/useFinancialDataExtractor.ts:91-103 | the number of sources is the number of citable chunks |
| `NewsMerge.MergedNewsAnalysis` | hooks/useFinancialDataExtractor.ts:112-118 | a falsy news analysis is created, an object one is updated in place, and a truthy non-object makes the assignment throw |
| `NewsMerge.MergeNews` | hooks/useFinancialDataExtractor.ts:108-121 | no events leaves the result unchanged; only the `analysis` property can change |
| `NewsMerge.MergeStoresNews` | hooks/useFinancialDataExtractor.ts:112-117 | after a merge with events the news analysis holds exactly those events and the templated summary naming the company, and the rest of the analysis is untouched |
| `NewsMerge.MergeKeepsValid` | hooks/useFinancialDataExtractor.ts:108-121 | a validated result still passes validation after the merge |
| `NewsMerge.MalformedNewsAnalysisKept` | hooks/useFinancialDataExtractor.ts:113-121 | a truthy non-object news analysis makes the merge a no-op, because the throw is caught |
| `NewsMerge.MergeEncoded` | hooks/useFinancialDataExtractor.ts:108-121 | on typed results the merge is the encoding of the same result with its news analysis replaced by the events and the templated summary, created when it was absent |
| `NewsMerge.NewsCreated` | hooks/useFinancialDataExtractor.ts:113-117 | a missing news analysis becomes `{events, summary}` with the templated summary |
| `NewsMerge.NewsReplaced` | hooks/useFinancialDataExtractor.ts:116-117 | an existing news analysis has both properties overwritten: it becomes exactly `{events, summary}` with the templated summary |
| `Extractor.BlankReplyError` | hooks/useFinancialDataExtractor.ts:76-83 | a blank reply's error is the safety message exactly when the first candidate finished for safety, and the empty-reply message otherwise |
| `Extractor.ResponseSources` | hooks/useFinancialDataExtractor.ts:88-104 | every source collected can be shown with a URI and a title |
| `Extractor.Finish` | hooks/useFinancialDataExtractor.ts:106-126 | the news step keeps the result valid and never throws; the sources are those of the first candidate |
| `Extractor.ExtractData` | hooks/useFinancialDataExtractor.ts:44-127 | the progress calls are a non-empty prefix of the six stages; the run returns exactly when all six were made, and then with a validated analysis; a failed file read stops at the first stage |
| `Extractor.ProgressRises` | hooks/useFinancialDataExtractor.ts:45-124 | the reported percentages rise strictly, and the last is 100 exactly when the run succeeds |
| `Extractor.BlankReplyStopsAtSixty` | hooks/useFinancialDataExtractor.ts:74-83 | a blank reply stops the run after 60 with the safety or the empty-reply error |
| `Extractor.BadReplyStopsAtSeventy` | hooks/useFinancialDataExtractor.ts:85-87 | an unusable reply stops the run after 70 with the parse error |
| `Extractor.FencedReplyExtracted` | hooks/useFinancialDataExtractor.ts:85-126 | a fenced encoding of a typed result, surrounded by prose, comes back as that result, with the verified news merged in when there is any, together with the first candidate's sources |
| `UriComponent.Encode` | utils/newsService.ts:43 | the encoded company name holds only unreserved characters and `%` (so no `&`), and text made of unreserved characters is left as it is |
| `UriComponent.DecodeEncode` | utils/newsService.ts:43 | percent-decoding the encoding gives back the original text |
| `NewsService.RequestUrl` | utils/newsService.ts:30-43 | no request without an API key or without a truthy ticker or name; a truthy ticker goes unencoded into `tickers=`, otherwise the percent-encoded name into `q=`, each followed by `&sort=LATEST&limit=5&apikey=` and the key |
| `NewsService.NameQueryRoundTrip` | utils/newsService.ts:43 | the `q` parameter of a by-name request decodes to the company name |
| `NewsService.TickerQueryReadBack` | utils/newsService.ts:42 | the `tickers` parameter reads back as the ticker when the ticker holds no `&` |
| `NewsService.TickerWithAmpersandIsCut` | utils/newsService.ts:42 | the ticker is not encoded: "M&M.NS" is requested as "M" |
| `NewsService.FormatDate` | utils/newsService.ts:63-65 | the date has two dashes plus at most eight characters of the timestamp; a timestamp of at least eight characters gives its year, month and day characters joined by dashes |
| `NewsService.DateExample` | utils/newsService.ts:63-65 | "20240115T123000" becomes "2024-01-15" |
| `NewsService.FormatDateFields` | utils/newsService.ts:65 | splitting the date at its dashes gives the year, month and day characters of the timestamp |
| `NewsService.EventOf` | utils/newsService.ts:67-73 | title, summary and URL are copied, the date is reformatted, and the source is `source` when non-empty and `source_domain` otherwise |
| `NewsService.MapEvents` | utils/newsService.ts:62-73 | one event per feed item, in feed order |
| `NewsService.EventsFrom` | utils/newsService.ts:49-74 | a failed request, an error message, a rate-limit note or a missing feed gives no events; otherwise the first five items, mapped, in order |
| `NewsService.FetchCompanyNews` | utils/newsService.ts:29-79 | at most five events; none when no request is made; otherwise exactly the events the provider's reply to that request yields |
| `NewsService.MissingKeyNoNews` | utils/newsService.ts:30-33 | without an API key nothing is returned, whatever the provider would say |
| `NewsService.LongFeedKeepsFirstFive` | utils/newsService.ts:62-74 | a feed of more than five items gives its first five, mapped |
| `CsvExport.FlattenIntoLeaves` | utils/exportUtils.ts:8-20 | when no two leaf paths coincide, the accumulating flatten appends exactly the leaves: dotted paths, arrays as their JSON text, other values unchanged |
| `CsvExport.FlattenIsLeaves` | utils/exportUtils.ts:8-22 | `flattenObject` equals the reference leaf listing whenever the paths are distinct |
| `CsvExport.PutAllFresh` | utils/exportUtils.ts:12 | `Object.assign` with new keys appends the source's properties in order |
| `CsvExport.EmptyObjectVanishes` | utils/exportUtils.ts:9-19 | an empty nested object contributes no column |
| `CsvExport.Escape` | utils/exportUtils.ts:24 | every quote is doubled and every other character occurs as often as before, so the text grows by its number of quotes |
| `CsvExport.QuoteAll` | utils/exportUtils.ts:24 | one quoted field per value, in order |
| `CsvExport.ValueTexts` | utils/exportUtils.ts:24 | one text per flattened value, `String(v)` of each, in order |
| `CsvExport.ExportToCsv` | utils/exportUtils.ts:22-28 | the file is named after the company with `_Analysis.csv`; when no key holds a comma or newline, its text reads back as the flattened keys and the string forms of their values |
| `CsvExport.ScanEscaped` | utils/exportUtils.ts:24 | reading a quoted field whose quotes were doubled gives back the original text |
| `CsvExport.ParseQuotedRow` | utils/exportUtils.ts:24 | reading a line of quoted, comma-joined fields gives back the texts |
| `CsvExport.CsvTextRoundTrip` | utils/exportUtils.ts:22-26 | the exported text reads back as the flattened keys and the string forms of their values, in corresponding positions |
| `Dashboard.UnitAbbreviation` | components/SankeyDiagram.tsx:14-22 | the suffix is the abbreviation of the first scale word (million, billion, crore, thousand) that the lower-cased unit contains, and empty exactly when the unit is absent, empty or contains none |
| `Dashboard.UnitIgnoresCase` | components/SankeyDiagram.tsx:17 | a unit and its lower-cased form get the same suffix |
| `Dashboard.MillionsBeforeThousands` | components/SankeyDiagram.tsx:18-21 | a unit mentioning millions is abbreviated " M" whatever else it mentions |
| `Dashboard.FormatCurrency` | components/SankeyDiagram.tsx:14-39 | the text ends with the unit's suffix after the currency-style number, or after the currency code and the plain number when currency formatting throws |
| `Dashboard.FormatRatio` | components/SankeyDiagram.tsx:41-44 | a missing ratio reads "N/A"; a present one is its two-decimal text, with "%" appended for percentages |
| `Dashboard.RatioCards` | components/SankeyDiagram.tsx:205-210 | six cards, in order, of which exactly the three margins are percentages |
| `Dashboard.SelectDisplay` | components/SankeyDiagram.tsx:94-96 | the USD figures and currency "USD" are shown only when the toggle is USD and the result has USD figures; otherwise the local figures and currency |
| `Dashboard.GrossProfit` | components/SankeyDiagram.tsx:99 | gross profit plus cost of goods sold is revenue |
| `Dashboard.NetOperatingIncome` | components/SankeyDiagram.tsx:100 | net operating income plus operating expenses is gross profit, and with the cost of goods sold adds up to revenue |
| `Dashboard.Clamp` | components/SankeyDiagram.tsx:102 | a chart value is never negative, equals the figure when that is not negative, and is zero otherwise |
| `Dashboard.SankeyLinks` | components/SankeyDiagram.tsx:102 | four links from revenue and from gross profit, each value the clamped figure and never negative |
| `Dashboard.GrossProfitNodeBalance` | components/SankeyDiagram.tsx:99-102 | the diagram never shows less leaving gross profit than entering it, and the two are equal exactly when operating expenses and net operating income do not have strictly opposite signs |
| `Dashboard.FlowConserved` | components/SankeyDiagram.tsx:99-102 | with no negative figure, revenue splits exactly into its two links and gross profit into its two |
| `Dashboard.UnitText` | components/SankeyDiagram.tsx:62 | the axis suffix is empty exactly when the unit is, and otherwise is " (in unit)" |
| `Dashboard.ChartRows` | components/SankeyDiagram.tsx:63 | one row per chart point, in order: the year as text, the revenue, the profit before tax |
| `Dashboard.TrendSectionOf` | components/SankeyDiagram.tsx:195-197 | the chart is drawn exactly when there is more than one point, with the header row followed by the points' rows |
| `Dashboard.ChartColumnsReadBack` | components/SankeyDiagram.tsx:63 | the chart's numeric columns give back each point's revenue and profit |
| `Dashboard.NatText` | components/SankeyDiagram.tsx:54 | a citation number is written as a non-empty string of decimal digits |
| `Dashboard.NatTextReadBack` | components/SankeyDiagram.tsx:54 | reading those digits gives back the number |
| `Dashboard.CitationsFrom` | components/SankeyDiagram.tsx:53-55 | at most one item per source, numbered within the list's positions |
| `Dashboard.CitationsPointAtSources` | components/SankeyDiagram.tsx:53-54 | each item's number is one more than the index of a source with `web`, and its link and label are that source's |
| `Dashboard.CitationsAscend` | components/SankeyDiagram.tsx:53-54 | the numbers strictly increase down the list |
| `Dashboard.CitationsCoverSources` | components/SankeyDiagram.tsx:53-54 | every source with `web` has an item numbered by its position in the whole list |
| `Dashboard.SourceCitations` | components/SankeyDiagram.tsx:47-59 | no sources block at all for an empty list |
| `Dashboard.CitationNumberReadBack` | components/SankeyDiagram.tsx:54 | a label starts with the bracketed number, which reads back as the citation's number |
| `Dashboard.ShownSourcesIgnoreHostname` | components/SankeyDiagram.tsx:54 | for sources that passed the grounding filter the host-name fallback is never used |
| `App.Start` | App.tsx:21-30 | a selection while loading changes nothing; otherwise the file is set, the previous outcome cleared and loading starts at 0 |
| `App.OnProgress` | App.tsx:33-36 | a progress call sets stage and percentage and nothing else |
| `App.Report` | App.tsx:33-36 | after a run's progress calls the state shows the last call's stage and percentage, and nothing else changed |
| `App.Settle` | App.tsx:37-45 | a success stores the analysis and sources, a failure stores the prefixed message (or the unknown-error text), and loading ends either way |
| `App.HandleFileSelect` | App.tsx:21-46 | a selection while loading is ignored; otherwise the run ends with loading off and the file remembered |
| `App.Reset` | App.tsx:48-54 | reset clears file, result, sources, error and loading, and keeps progress and stage |
| `App.FileName` | App.tsx:71 | the shown file name is never empty: the file's name, or "your document" |
| `App.ViewOf` | App.tsx:62-75 | the loader while loading, else the error view for a non-empty error, else the dashboard for a truthy result, else the upload form |
| `App.LoaderFollowsProgress` | App.tsx:62-63 | during a run the loader shows the latest callback's stage and percentage |
| `App.CompleteIsTruthy` | App.tsx:66 | a validated analysis is truthy, so it is always shown |
| `App.RunSettles` | App.tsx:21-46 | a run shows the dashboard exactly when the extractor returned and the error view with the prefixed message otherwise, with no result left behind; the progress shown is 100 exactly on success |
| `App.BusyIgnoresSelection` | App.tsx:22 | while loading, a new selection leaves the state and the loader as they are |
| `App.ResetShowsUpload` | App.tsx:48-54 | after a reset the upload form is shown, and a new selection starts the loader at 0 |
| `App.RetryAfterFailure` | App.tsx:39-54 | a failed first run followed by a reset returns to the start-up state apart from the last progress shown |

## Left out

- Reading the file as base64 (`utils/fileUtils` is not part of this model), the model client and its configuration, and the HTTP requests are all parameters or given outcomes. So is `response.json()`. The safety settings and the model name in the configuration are not passed to the request, so they have no effect to model.
- `JSON.parse` and `JSON.stringify` are parameters; no JSON grammar is modelled.
- Floating-point numbers are modelled as reals. `NaN` (falsy in JavaScript) does not arise. Number-to-text conversion (`String(n)`, `toFixed(2)`, `Intl.NumberFormat`) is a parameter.
- `toLowerCase` is modelled on ASCII letters only. Outside ASCII, only U+0130 and U+212A lower-case into ASCII letters, and neither can complete one of the four scale words.
- The API-key console checks and all console logging (hooks/useFinancialDataExtractor.ts:8-15 and the `console` calls elsewhere) are left out.
- A news provider reply that does not fit its declared shape (for example a non-string `time_published`, which makes the mapping throw and the service return no events) is left out: the reply is typed.
- CsvExport.Flatten: JavaScript lists integer-like keys before other keys and treats `__proto__` specially. The model keeps properties in insertion order for every key.
- NewsMerge.MergeNews: an `analysis.newsAnalysis` that is an array cannot hold named properties in this JSON model, so it is treated as left unchanged. In JavaScript the assignments would add properties to the array object.
- The Excel and PDF exports (`exportToExcel`, `exportToPDF`) and `saveAs` are library calls and layout. They are left out; for the CSV file, its name and text are returned.
- The dashboard's colours, the action tone of the recommendation banner, the header line and the chart options are presentation only. The charts are not drawn; their input rows are returned.
- Dashboard.ShownSourcesIgnoreHostname: `new URL(uri)` throws on a malformed URI. Because the host name is a parameter, that throw is not modelled. The lemma shows the host name is never needed for sources that passed the grounding filter.
- UriComponent.Encode: strings are sequences of Unicode scalar values, while JavaScript strings are UTF-16 code units. A lone surrogate (from a JSON escape such as `"\ud800"` in the company name) makes `encodeURIComponent` throw at utils/newsService.ts:43, before the `try` at :45; the news step's `catch` would then keep the result unchanged. Such strings cannot be represented, so that path is not modelled.
- Strings.Substring: indices count Unicode scalar values, not UTF-16 code units, so `substring` on text outside the Basic Multilingual Plane is not modelled exactly.
- NewsService.FormatDate: uses `Strings.Substring`, so the same limit applies to timestamps holding characters outside the Basic Multilingual Plane.
- React rendering, hook scheduling and concurrent runs are not modelled: the setters of `handleFileSelect` take effect in program order. `components/FileUpload.tsx`, `components/Loader.tsx`, `components/Header.tsx` and `components/ErrorDisplay.tsx` are presentation.
