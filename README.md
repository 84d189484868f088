# Google Ads forecast calculator — a verified model

This project models the computing core of a small Google Ads forecast calculator.

- **Estimation endpoint** (`pages/api/estimate.ts`). The endpoint validates a forecast request. It then chooses the effective cost per click (CPC) and monthly clicks from one of three sources:
  - the request's own values;
  - the mean over keyword ideas returned by the ads provider;
  - the first keyword found in a static fallback table.

  From these it computes total spend, revenue, ROI, CPC, CPM and a month-by-month breakdown.
- **Form** (`components/ForecastForm.tsx`). The form parses its comma-separated keyword text, decides when the Calculate button is disabled, and assembles the request payload.
- **CSV export** (`utils/csv.ts`). The export builds the CSV text of a forecast.
- **Event counter** (`utils/analytics.ts`). This is a client-side counter kept in local storage.

Files:

- `optional.dfy` has the `Option` type.
- `text.dfy` holds the JavaScript string operations the core uses: `split` and `join` with a one-character separator, `trim` with JavaScript's white-space set, and ASCII `toLowerCase`. It proves that `split` and `join` are inverse to each other, and what `trim` removes.
- `estimate_types.dfy` holds the request, response and keyword-idea records.
- `estimate.dfy` holds the endpoint:
  - `Validate` is the validation.
  - `Selected` and `Forecast` are a declarative specification of the handler.
  - `Handle` is the endpoint's reply.
  - `Handler` is the handler written step by step, with mutable effective values and the keyword scan `ScanFallback`. It is proved to answer exactly what `Handle` specifies.
- `forecast_form.dfy` holds the keyword parser, the `disabled` predicate and the payload. It proves a cross-file property: with no request in flight, the button is enabled exactly when the payload passes the endpoint's validation.
- `csv.dfy` holds the export text, with number formatting left as an argument.
- `analytics.dfy` holds the counter. A class with a `saved` field stands for local storage; `TrackEvent` updates the entry in place. The update is specified by the function `Tracked`.

Inputs that are outside the program are parameters:

- the ads provider's behaviour (`Provider`: not configured, failed, or returned these ideas);
- the fallback table (a map);
- the number formatter;
- the current time;
- whether a browser window exists.

Two behaviours of the code are easy to miss:

- When the provider answers with an empty list of ideas, the fallback table is not consulted. The request values are kept and `usedApi` stays false (`pages/api/estimate.ts:42-48`).
- The fallback note is present whenever `usedApi` is false. That includes requests without keywords, where neither the provider nor the table was consulted (`pages/api/estimate.ts:95`).

## Model

| member | source | states |
|---|---|---|
| Text.Split | components/ForecastForm.tsx:34 | `split` always yields at least one piece, and no piece holds the separator |
| Text.JoinSplit | components/ForecastForm.tsx:34 | joining the pieces of a split with the same separator restores the string |
| Text.Join | utils/csv.ts:17-22 | `join` puts one separator between neighbouring parts and none for zero or one part; the text starts with the first part; `Text.SplitJoin` and `Text.JoinSplit` make it the inverse of `split` |
| Text.SplitJoin | utils/csv.ts:16-22 | splitting a join of one or more separator-free parts gives back the parts, in order |
| Text.TrimStart | components/ForecastForm.tsx:35 | the result is a suffix of the input; only white space was dropped; it does not start with white space |
| Text.TrimEnd | components/ForecastForm.tsx:35 | the result is a prefix of the input; only white space was dropped; it does not end with white space |
| Text.TrimCutsSpace | components/ForecastForm.tsx:35 | `trim` cuts the input into white space, the result and white space, the result starting where the leading white space ends |
| Text.Trim | components/ForecastForm.tsx:35 | `trim` removes the leading, then the trailing white space: the result is no longer than the input and neither starts nor ends with white space |
| Text.TrimEmptyIffSpace | components/ForecastForm.tsx:35 | `trim` yields the empty string exactly when the input is all white space |
| Text.TrimUnpadded | components/ForecastForm.tsx:35 | an unpadded string is unchanged by `trim` |
| Text.ToLower | pages/api/estimate.ts:52 | `toLowerCase` keeps the length, turns each upper-case ASCII letter into its own lower-case letter, and changes no other character |
| Text.ToLowerIdempotent | pages/api/estimate.ts:63 | lower-casing an already lower-cased keyword changes nothing |
| Estimate.Validate | pages/api/estimate.ts:6-15 | accepts exactly when there is a body, `keywords` is an array and each of the five numeric fields is a number > 0; an accepted request is valid and carries the body's fields unchanged |
| Estimate.ValidateRoundTrip | pages/api/estimate.ts:6-15 | a serialised request passes validation exactly when it is valid, and comes back unchanged |
| Estimate.SumCpc | pages/api/estimate.ts:43 | the CPC sum over the ideas, the target CPC standing in for a missing CPC: with no CPC at all it is the target CPC once per idea (so the mean is the target CPC); with positive terms it is positive |
| Estimate.SumClicks | pages/api/estimate.ts:44 | the clicks sum over the ideas, zero standing in for a missing value: with no click estimate at all it is zero (so the request's clicks are kept); with non-negative terms it is non-negative |
| Estimate.FirstMatch | pages/api/estimate.ts:51-58 | the entry of the first keyword whose lower-cased form is a table key; a chosen entry is always one of the table's entries |
| Estimate.Selected | pages/api/estimate.ts:33-71 | live data is used exactly when there are keywords and the provider answered with a non-empty list; otherwise CPC and clicks are the request's or a row of the table; a valid request with a table of positive rows always gets positive values |
| Estimate.RoiPct | pages/api/estimate.ts:76 | ROI is NaN (`None`) exactly when spend is zero |
| Estimate.RoiSign | pages/api/estimate.ts:76 | with positive spend, ROI is positive exactly when revenue exceeds spend, and zero exactly when they are equal |
| Estimate.RoiFromRoas | pages/api/estimate.ts:73-76 | with revenue equal to spend times ROAS and spend non-zero, ROI is `(ROAS - 1) * 100` |
| Estimate.Forecast | pages/api/estimate.ts:73-95 | revenue is spend times ROAS; ROI is `(ROAS - 1) * 100` when spend is non-zero and NaN (`None`) when it is zero; one breakdown entry per month |
| Estimate.Handle | pages/api/estimate.ts:17-100 | success exactly for a POST with a valid body whose month count an array can hold; every failure is 400, 405 or 500 |
| Estimate.ScanFallback | pages/api/estimate.ts:51-58 | the scan leaves both values alone when no keyword's lower-cased form is a table key, and otherwise takes both from the first such keyword's entry |
| Estimate.Handler | pages/api/estimate.ts:17-100 | the step-by-step handler, with its mutable `usedApi`, effective CPC and clicks and its two scans, returns exactly the reply `Handle` specifies |
| Estimate.RejectedBeforeComputing | pages/api/estimate.ts:21-28 | a non-POST call is refused with 405 "Method not allowed", and a POST with an invalid body with 400 "Invalid input", whatever the provider and table |
| Estimate.NoKeywordsKeepDefaults | pages/api/estimate.ts:33-37 | with no keywords the effective CPC and clicks are the request's; `usedApi` is false; spend is clicks × CPC × months; the note is present |
| Estimate.LiveIdeasAveraged | pages/api/estimate.ts:42-47 | with a non-empty idea list, CPC is the mean of the ideas' CPCs (target CPC when missing) if that mean is positive, else the target CPC; clicks likewise, with 0 for a missing value; `usedApi` is true |
| Estimate.LiveValuesPositive | pages/api/estimate.ts:45-46 | for a valid request, the live CPC and clicks are positive |
| Estimate.EmptyIdeasKeepDefaults | pages/api/estimate.ts:42-48 | an empty idea list keeps the request values, with `usedApi` false, and does not depend on the table |
| Estimate.ThrowsLikeEnvMissing | pages/api/estimate.ts:49-69 | a failed provider call and a missing configuration give the same reply |
| Estimate.FirstMatchIsFirst | pages/api/estimate.ts:51-58 | the chosen entry belongs to the first keyword, in input order, whose lower-cased form is a key; none is chosen exactly when no keyword is a key |
| Estimate.FirstMatchIgnoresLater | pages/api/estimate.ts:56 | after a match, appending more keywords changes nothing |
| Estimate.UnmatchedKeywordsActLikeNone | pages/api/estimate.ts:50-69 | without live data, keywords none of which is in the table give the same reply as no keywords |
| Estimate.PositiveTableKeepsRoiDefined | pages/api/estimate.ts:73-76 | for a valid request and a table of positive entries, spend is positive and ROI is always `(ROAS - 1) * 100`, never NaN |
| Estimate.BreakdownAddsUp | pages/api/estimate.ts:78-82 | the breakdown lists months 1..campaignMonths in order; each month's spend is the total spread evenly; each month's revenue is its spend × ROAS; monthly spends and revenues add up to the totals |
| Estimate.CpcAndCpm | pages/api/estimate.ts:84-85 | CPC is the effective CPC; CPM × clicks is CPC × 1000, and with zero clicks CPM is CPC × 1000 |
| Estimate.NoteIffNotLive | pages/api/estimate.ts:94-95 | the fixed note is present exactly when `usedApi` is false; `usedApi` is true exactly when there were keywords and the provider returned a non-empty list |
| Estimate.ScenarioDefaults | pages/api/estimate.ts:73-95 | worked example: CPC 2, 500 clicks, ROAS 4, 3 months gives spend 3000, revenue 12000, ROI 300, CPM 4 and three equal months |
| Estimate.ScenarioFallback | pages/api/estimate.ts:50-58 | worked example: keyword "shoes" with a table entry for it takes that entry's CPC and clicks |
| Estimate.ScenarioLive | pages/api/estimate.ts:42-47 | worked example: ideas with CPC 3 and a missing CPC, and clicks 600 and 400, at target CPC 2, give CPC 2.5 and 500 clicks |
| ForecastForm.Disabled | components/ForecastForm.tsx:19-25 | the button is disabled while a request is in flight; otherwise it is disabled exactly when the payload would not be a valid request |
| ForecastForm.DropEmpty | components/ForecastForm.tsx:36 | `filter(Boolean)` keeps only non-empty pieces of the input; nothing is kept exactly when every piece is empty |
| ForecastForm.DropEmptyCounts | components/ForecastForm.tsx:36 | every non-empty piece is kept as often as it occurs, and no empty piece is |
| ForecastForm.DropEmptyAppend | components/ForecastForm.tsx:36 | filtering a concatenation is concatenating the filtered halves, so the kept pieces stay in input order |
| ForecastForm.TrimAll | components/ForecastForm.tsx:35 | the k-th result is the k-th piece trimmed; none of the results is padded with white space |
| ForecastForm.ParseKeywords | components/ForecastForm.tsx:33-36 | every parsed keyword is non-empty, has no comma, and neither starts nor ends with white space |
| ForecastForm.KeywordsEmptyIffBlank | components/ForecastForm.tsx:33-36 | the parser yields no keyword exactly when the text is only commas and white space |
| ForecastForm.KeywordsRoundTrip | components/ForecastForm.tsx:33-36 | well-formed keywords joined with commas parse back to the same list, in order |
| ForecastForm.EnabledIffValid | components/ForecastForm.tsx:19-42 | with no request in flight, the button is enabled exactly when the payload passes the endpoint's validation unchanged |
| ForecastForm.BuildPayload | components/ForecastForm.tsx:32-42 | the payload carries well-formed keywords and the five numbers exactly as entered |
| Csv.MetricRows | utils/csv.ts:5-11 | five metric rows; the third holds the ROI label and the ROI text, "null" for a NaN ROI |
| Csv.MonthlyRows | utils/csv.ts:14 | one three-cell row per breakdown entry |
| Csv.CsvLines | utils/csv.ts:16-21 | 8 + months lines, the seventh of them empty |
| Csv.CsvLayout | utils/csv.ts:4-22 | the lines are `Metric,Value`, then the five `label,value` rows in order, then an empty line, then `Month,Spend,Revenue`, then one `month,spend,revenue` line per month: 8 + months lines |
| Csv.CsvText | utils/csv.ts:16-22 | with plain number formatting the text splits on newlines into exactly its lines, and it does not end with a newline |
| Csv.CsvCommaCounts | utils/csv.ts:5-14 | with plain number formatting each metric line holds exactly one comma and each month line exactly two |
| Analytics.Tracked | utils/analytics.ts:26-34 | tracking a name adds it to the table, counts one more (1 if it was new), stamps the time, replaces the sample only when a payload is given, and leaves other entries alone |
| Analytics.CountsCalls | utils/analytics.ts:25-35 | after a sequence of calls on an empty table, exactly the called names have entries, each counted as often as it was called |
| Analytics.AnalyticsStorage.ReadStore | utils/analytics.ts:5-14 | the table is empty outside a browser, when nothing is stored and when the stored text does not parse; otherwise it is the stored table |
| Analytics.AnalyticsStorage.WriteStore | utils/analytics.ts:16-23 | in a browser the table replaces what is stored and reads back unchanged; outside one nothing changes |
| Analytics.AnalyticsStorage.TrackEvent | utils/analytics.ts:25-35 | the stored table becomes `Tracked` of the previous one; outside a browser storage is untouched |
| Analytics.AnalyticsStorage.Summary | utils/analytics.ts:37-39 | returns the current table and changes nothing |

## Left out

- JavaScript numbers are modelled as `real`. Rounding, infinities and NaN are not modelled, with one exception: a NaN ROI from zero spend is modelled as `None`, which the JSON reply carries as `null` and the CSV prints as "null". `validate` lets NaN fields through; in the model every field is a number.
- `campaignMonths` is an integer. `validate` also accepts fractional months, for which `Array.from` truncates the breakdown length while `totalSpend` uses the fraction; that is not modelled. A month count above 2^32 - 1 makes `Array.from` throw, and the handler's outer `catch` turns that into a 500; this is modelled.
- The request body's JSON parsing is abstracted in `RawBody`. A field is present only when it has the expected JSON type, and `keywords` only when it is an array of strings. An array holding non-strings therefore reaches `Validate` as a missing `keywords` and the model answers 400. The code accepts such an array (`Array.isArray`, pages/api/estimate.ts:8). It then answers 500 when the fallback scan calls `toLowerCase` on a non-string, and 200 when the provider answers, whether with ideas or with an empty list.
- `toLowerCase` is modelled for ASCII letters only.
- The fallback table is a map, so keys inherited from the JavaScript object prototype (such as "constructor") are not modelled. `data/fallback.json` is not part of this model; the table is an argument.
- The ads provider (`lib/googleAds.ts`) is an input outcome: its credential check, API call, query text and unit conversions are not modelled.
- `String(n)` formatting is an argument to the CSV functions. The Blob, object-URL and link-click download at utils/csv.ts:24-31 is browser I/O and is not modelled.
- Analytics.Tracked: the event table is a map, so names inherited from the JavaScript object prototype are not modelled. In the code, a name such as "constructor" or "toString" finds an inherited member at utils/analytics.ts:27, so the first call stores a count of NaN. `writeStore` serialises NaN as `null`, the next `readStore` parses it back as an entry of its own, and `null + 1` is 1. The stored counts for such a name therefore run null, 1, 2, …, one behind the model's 1, 2, 3, …. A name of "__proto__" is never stored at utils/analytics.ts:33, because the assignment goes to the prototype setter; the model stores it.
- Local storage and JSON (de)serialisation are abstracted in the `Saved` value. A stored text that parses to something other than a table, and a write that throws (quota), are not modelled.
- The `trackEvent` call when the form is submitted (components/ForecastForm.tsx:43) and the React state of the form are not modelled. `parseFloat`/`parseInt` results are `real`/`int` fields of `FormState`, so NaN from a bad input is not modelled.
- The spreadsheet export endpoint, the page, the results view and the theme toggle are UI or I/O, and are not part of this model.
