# AI attribution tracker: verified model of its core

The repository is a small demo of AI code attribution. A Next.js dashboard receives commit
traces over OTLP/HTTP, keeps the most recent ones in memory, and shows per-commit AI, human
and mixed line counts. Two Python scripts serve as sample code that the demo edits to
produce commits. This project models the following in Dafny and proves properties of them:

- **TraceStore** (`trace_store.dfy`) models the in-memory store as a class. It holds a
  newest-first window of at most 100 traces and a registry of listeners with set semantics.
  A ghost history of every added trace and a ghost log of every listener call specify it.
  Proved: the window after any sequence of adds, who is called and with what, and
  unsubscribe.
- **OtlpIngest** (`otlp_ingest.dfy`) models the `POST` handler of the ingestion endpoint.
  The request body arrives already decoded; the three nested loops add one trace per span,
  in nesting order. `getAttribute` keeps its fallbacks. Each trace field is traced back to
  its origin. The 400 answer and the `{status: 'ok'}` answer are both modelled.
- **Attribution** (`attribution.dfy`) models the dashboard's attribution block. The
  `\"` to `"` rewrite of the stats text is one left-to-right pass. The parse becomes `null`
  on failure, the block shows only for a truthy result, and each missing counter defaults
  to 0.
- **DataProcessor** (`data_processor.dfy`) models `DataProcessor` of
  `demo-code-to-change/script_1.py`:
  - sample-record ids and names;
  - `filter_data`;
  - `process_data`: the empty check, the count, the means and extremes, the category
    breakdown loop, and `processed_data`.
- **TextProcessor** and **DataAnalyzer** (`text_processor.dfy`, `data_analyzer.dfy`) model
  the classes of `demo/script_2.py`:
  - TextProcessor: tokenising, stop-word removal, word frequencies and sentence
    extraction;
  - DataAnalyzer: grouping, the moving average, anomaly detection and column statistics.
  - Every Python exception (`KeyError`, `TypeError`, `ZeroDivisionError`) is a `None`
    result.
- Shared modules:
  - `Wrappers` holds `Option`.
  - `Seqs` holds order-preserving filtering, first-seen de-duplication and occurrence
    counts.
  - `Text` holds decimal text and whitespace.
  - `Reals` holds sum, min, max and mean of exact reals.

Where the models stand in for things:

- `JSON.parse`, the clock and the random draws are parameters:
  - `parse: string -> Option<Json>`;
  - `clock: nat -> Stamp`, the reading taken for the k-th trace of a request;
  - `draw: nat -> Draw`.
- Python and JavaScript numbers are exact reals, so the model has no float rounding.

## Model

| member | source | states |
|---|---|---|
| TraceStore.PrependShape | demo-ui/src/lib/traceStore.ts:23-26 | one add puts the trace first, followed by the old window in its old order, cut so that the length grows by one below 100 and stays 100 at 100 (the oldest entry goes) |
| TraceStore.PrependNewest | demo-ui/src/lib/traceStore.ts:22-26 | one add to the window of a history gives the window of the history extended by that trace |
| TraceStore.ReplayNewest | demo-ui/src/lib/traceStore.ts:22-27 | any sequence of adds to the window of a history gives the window of the whole history: the last 100 traces, newest first |
| TraceStore.WindowAfterAdds | demo-ui/src/lib/traceStore.ts:22-27 | from an empty store, k adds leave exactly the last min(k, 100) traces, newest first, repeats kept |
| TraceStore.Notify | demo-ui/src/lib/traceStore.ts:27 | one add makes one call per registered listener, in registration order, each with the trace and the already updated window |
| TraceStore.DeliveredOnce | demo-ui/src/lib/traceStore.ts:27 | a registered listener receives the added trace exactly once; an unregistered one receives nothing |
| TraceStore.Register | demo-ui/src/lib/traceStore.ts:35 | `Set.add`: a new listener goes last, after every listener already registered; a listener already in the set keeps its place and nothing changes; no listener is ever registered twice |
| TraceStore.Deregister | demo-ui/src/lib/traceStore.ts:36 | `Set.delete`: exactly that listener leaves; the others keep their relative order |
| TraceStore.RegisterThenDeregister | demo-ui/src/lib/traceStore.ts:34-37 | unsubscribing a newly subscribed listener restores the registry it joined |
| TraceStore.Store.constructor | demo-ui/src/lib/traceStore.ts:18-20 | a new store has an empty window, no listeners and an empty history |
| TraceStore.Store.AddTrace | demo-ui/src/lib/traceStore.ts:22-28 | `addTrace`: the window becomes the prepended-and-capped window, the window stays that of the history, the registry is unchanged, and the calls made are those of `Notify` with the new window |
| TraceStore.Store.GetTraces | demo-ui/src/lib/traceStore.ts:30-32 | `getTraces` returns the window unchanged: at most 100 entries, the i-th being the i-th most recent trace |
| TraceStore.Store.Subscribe | demo-ui/src/lib/traceStore.ts:34-35 | `subscribe` registers the listener with set semantics and changes nothing else |
| TraceStore.Store.Unsubscribe | demo-ui/src/lib/traceStore.ts:36 | the returned closure removes the listener and changes nothing else |
| TraceStore.UnsubscribeThenAdd | demo-ui/src/lib/traceStore.ts:27-36 | after unsubscribing, an add never reaches that listener and reaches each other registered listener exactly once |
| OtlpIngest.FindAttribute | demo-ui/src/app/api/v1/traces/route.ts:26 | `find` yields an attribute with the key that is in the list, and yields nothing exactly when no attribute has the key |
| OtlpIngest.ValueText | demo-ui/src/app/api/v1/traces/route.ts:27 | a missing value gives `''`; a non-empty `stringValue` wins; an absent or empty `stringValue` falls through to a non-empty `intValue`; with both absent or empty the result is `''` |
| OtlpIngest.GetAttribute | demo-ui/src/app/api/v1/traces/route.ts:25-28 | `''` for a missing list or a missing key; a non-empty result is the value text of an attribute with the key |
| OtlpIngest.FindFirstMatch | demo-ui/src/app/api/v1/traces/route.ts:26 | the first attribute with the key is the one found, whatever follows it |
| OtlpIngest.FirstMatchWins | demo-ui/src/app/api/v1/traces/route.ts:25-28 | `getAttribute` reads the first attribute with the key; later duplicates are ignored |
| OtlpIngest.ScopeSitesFrom | demo-ui/src/app/api/v1/traces/route.ts:38-39 | each site of a resource group holds that group's repository and a span of one of its scope groups |
| OtlpIngest.GroupSitesFrom | demo-ui/src/app/api/v1/traces/route.ts:34-39 | each site of a payload comes from one resource group: its span belongs to one of that group's scope groups and its repository is that group's repository |
| OtlpIngest.DecodeSitesSnoc | demo-ui/src/app/api/v1/traces/route.ts:39-57 | one more span adds exactly one trace at the end, stamped with the next clock reading |
| OtlpIngest.DecodeProvenance | demo-ui/src/app/api/v1/traces/route.ts:35-55 | every decoded trace comes from one span of one resource group. Its `repo` is that group's `vcs.repository.name`. Its ids are copied from the span. Its `id` is `traceId-spanId-now`. Each other field is read from the span's own attribute under its fixed key |
| OtlpIngest.UniformScopeCount | demo-ui/src/app/api/v1/traces/route.ts:38-39 | m scope groups of n spans each yield m * n sites |
| OtlpIngest.UniformCount | demo-ui/src/app/api/v1/traces/route.ts:34-59 | k resource groups of m scope groups of n spans each yield k * m * n traces, one per span |
| OtlpIngest.NoGroupsNoTraces | demo-ui/src/app/api/v1/traces/route.ts:34 | a payload without `resourceSpans` yields no trace |
| OtlpIngest.IngestSite | demo-ui/src/app/api/v1/traces/route.ts:40-57 | one pass of the innermost loop adds the next decoded trace, extending history, window and call log accordingly |
| OtlpIngest.IngestSpans | demo-ui/src/app/api/v1/traces/route.ts:39-58 | the innermost loop adds the traces of its spans, in order |
| OtlpIngest.IngestScopes | demo-ui/src/app/api/v1/traces/route.ts:38-59 | the middle loop adds the traces of its scope groups, in order |
| OtlpIngest.Post | demo-ui/src/app/api/v1/traces/route.ts:30-67 | a body that does not parse gets 400 `Invalid payload` and the store is untouched. Any payload that parses gets `{status: 'ok'}`, also with zero spans, after every decoded trace was added in nesting order. The store then holds the replayed window and the replayed listener calls |
| Text.DecimalRoundTrip | demo-ui/src/app/api/v1/traces/route.ts:43 | the decimal text of a number is digits without a leading zero and reads back as that number |
| Attribution.UnescapeLength | demo-ui/src/app/page.tsx:52 | the rewrite shortens the text by exactly the number of pairs replaced, at most half its length |
| Attribution.NoPairUnchanged | demo-ui/src/app/page.tsx:52 | a text without a backslash-quote pair reaches the parser unchanged |
| Attribution.UnescapeCount | demo-ui/src/app/page.tsx:52 | for each character, occurrences after the rewrite plus (for a backslash) the pairs replaced equal the occurrences before |
| Attribution.UnescapeDropsBackslashes | demo-ui/src/app/page.tsx:52 | only backslashes disappear, one per replaced pair; every other character keeps its count |
| Attribution.SinglePass | demo-ui/src/app/page.tsx:52 | the rewrite is one pass: a doubled backslash before a quote leaves a backslash-quote pair in the output |
| Attribution.UnescapeEscape | demo-ui/src/app/page.tsx:52 | unescaping a text whose quotes were all backslash-escaped gives the original text back |
| Attribution.ParseAiStats | demo-ui/src/app/page.tsx:50-56 | the parser sees the rewritten text; a rejected text becomes `null`; an accepted one is the parsed value |
| Attribution.Lookup | demo-ui/src/app/page.tsx:139-153 | property access finds nothing exactly when no member has the name; a found value belongs to a member of that name |
| Attribution.LastMemberWins | demo-ui/src/app/page.tsx:153 | the value read is that of the last member with the name, as the JSON parser keeps the last duplicate |
| Attribution.CountShown | demo-ui/src/app/page.tsx:153-161 | `?? 0`: a missing or `null` counter displays as 0, any other value as it is, and the display is never `null` |
| Attribution.AttributionPanel | demo-ui/src/app/page.tsx:135-165 | the block renders exactly when the parsed stats are truthy; it then shows the `ai_percentage` property as read (absent stays absent) and, for each of the three line counters, its value with the `?? 0` default, so none is `null` |
| Attribution.RejectedHidesPanel | demo-ui/src/app/page.tsx:50-56 | stats text the parser rejects never renders a block |
| Attribution.MissingCountersShowZero | demo-ui/src/app/page.tsx:135-161 | a stats object without the three counters still renders, showing 0 for each |
| Attribution.PresentCounterShown | demo-ui/src/app/page.tsx:153 | a numeric counter displays as that number |
| DataProcessor.SampleNameCarriesId | demo-code-to-change/script_1.py:37-38 | a generated record's id is at least 1 and its name is `Product_` followed by the decimal digits of that id |
| DataProcessor.GenerateSampleData | demo-code-to-change/script_1.py:30-47 | `count` records (none for a negative count), in order, record i having id i + 1 and a category from the fixed list |
| DataProcessor.ByCategoryFilters | demo-code-to-change/script_1.py:132-133 | the category pass keeps exact matches in order, and keeps everything when the category is `None` or `''` |
| DataProcessor.ByMinPriceFilters | demo-code-to-change/script_1.py:135-136 | the lower bound is inclusive and applies only when given |
| DataProcessor.ByMaxPriceFilters | demo-code-to-change/script_1.py:138-139 | the upper bound is inclusive and applies only when given |
| DataProcessor.FilterDataSinglePass | demo-code-to-change/script_1.py:125-141 | `filter_data` keeps exactly the records meeting every given condition, in their original order, so its result is a sub-list of the input |
| DataProcessor.NoCriteriaKeepsAll | demo-code-to-change/script_1.py:130-141 | with no criteria (or an empty category) the input comes back unchanged |
| DataProcessor.Summarize | demo-code-to-change/script_1.py:66-77 | the extremes of a column are values of the column bounding all others, and the mean lies between them |
| DataProcessor.TallyStep | demo-code-to-change/script_1.py:83-88 | one pass of the breakdown loop keeps the tally: categories in first-seen order with their record counts and summed prices |
| DataProcessor.CategoryBreakdown | demo-code-to-change/script_1.py:82-88 | the breakdown's keys are exactly the categories that occur, in first-seen order, each with its number of records and its summed price |
| DataProcessor.BreakdownCoversAll | demo-code-to-change/script_1.py:59-88 | the breakdown counts add up to the number of records |
| DataProcessor.Processor.constructor | demo-code-to-change/script_1.py:21-23 | a new processor has its name and no processed data |
| DataProcessor.Processor.ProcessData | demo-code-to-change/script_1.py:49-93 | empty data gets the error record and leaves `processed_data` alone. Otherwise: the record count, the price mean, the quantity and rating summaries, and the category breakdown are returned, and the data becomes `processed_data` |
| Reals.MinOf | demo/script_2.py:176 | `min` is a value of the list no other value is below |
| Reals.MaxOf | demo/script_2.py:177 | `max` is a value of the list no other value is above |
| Reals.SumBounds | demo/script_2.py:175-177 | a sum of values within bounds lies within the bounds times the count |
| Reals.MeanBetween | demo/script_2.py:175-177 | the mean lies between the smallest and the largest value |
| TextProcessor.SplitFromTokens | demo/script_2.py:47 | every token of a split is a non-empty run without whitespace made of the text's characters |
| TextProcessor.SplitConcat | demo/script_2.py:47 | splitting drops exactly the whitespace: the tokens spell out every other character in order |
| TextProcessor.SplitJoin | demo/script_2.py:47 | splitting words joined by single spaces gives those words back |
| TextProcessor.LowerLowers | demo/script_2.py:47 | `lower()` turns each ASCII capital into its small letter, leaves every other character as it was, leaves no capital behind, and is idempotent |
| TextProcessor.TokensAreLowerWords | demo/script_2.py:45-47 | `tokenize` yields no empty token, no token with whitespace, and no upper-case ASCII letter |
| TextProcessor.RemoveStopWords | demo/script_2.py:49-51 | the result holds exactly the tokens outside the stop-word set, in their order, as a sub-list |
| TextProcessor.KeptTokensKeepCounts | demo/script_2.py:51 | a token outside the stop-word set keeps every occurrence |
| TextProcessor.WordFrequency | demo/script_2.py:53-55 | the keys are the distinct tokens, in first-seen order, without repeats, each counted at least once |
| Seqs.DistinctFirstSeen | demo/script_2.py:53-55 | first-seen order of dict keys (`Counter`, the category breakdown, `group_by_category`): of two keys, the earlier one occurs in the input before any occurrence of the later one |
| TextProcessor.OccurrencesIsMultiplicity | demo/script_2.py:55 | counting token by token gives the multiplicity of the word |
| TextProcessor.FrequencyCounts | demo/script_2.py:53-55 | each count is the word's number of occurrences, and the counts add up to the number of tokens |
| TextProcessor.DropTerminators | demo/script_2.py:59 | a run of `.`, `!`, `?` is consumed as one separator: the rest is a suffix that starts with no terminator |
| TextProcessor.StripIsSlice | demo/script_2.py:60 | `strip()` keeps the slice of the text between a whitespace-only prefix and a whitespace-only suffix, with no whitespace at either end, and is empty exactly when the whole text is whitespace |
| TextProcessor.StripNoTerminator | demo/script_2.py:60 | stripping a piece without terminators leaves it without terminators |
| TextProcessor.PiecesFromHaveNoTerminator | demo/script_2.py:59 | no piece of the split holds a terminator |
| TextProcessor.SentencesAreStripped | demo/script_2.py:57-60 | every extracted sentence is non-empty, stripped, and free of `.`, `!` and `?` |
| TextProcessor.StripSentence | demo/script_2.py:60 | stripping a sentence that is already stripped changes nothing |
| TextProcessor.SinglePiece | demo/script_2.py:59 | text without terminators is a single piece |
| TextProcessor.PiecesAfterStop | demo/script_2.py:59 | a full stop closes the piece before it, and what follows starts the next piece |
| TextProcessor.PiecesJoin | demo/script_2.py:59 | sentences joined by single full stops split back into those sentences |
| TextProcessor.KeepSentencesKeepsAll | demo/script_2.py:60 | the strip-and-drop-empty pass keeps a list of sentences as it is |
| TextProcessor.ExtractJoinedSentences | demo/script_2.py:57-60 | extracting the sentences of sentences joined by full stops gives them back |
| TextProcessor.NoTerminatorOneSentence | demo/script_2.py:57-60 | text without terminators is one stripped sentence, or none when it is blank |
| DataAnalyzer.GroupStep | demo/script_2.py:161-162 | one pass of the grouping loop keeps the groups equal to the rows of each key seen so far, with the keys in first-seen order |
| DataAnalyzer.GroupByCategory | demo/script_2.py:157-163 | a row without the key raises. Otherwise the keys are the distinct key values in first-seen order, and each maps to exactly the rows with that value, in their original order |
| DataAnalyzer.GroupSize | demo/script_2.py:162 | a group holds as many rows as its key occurs in the column |
| DataAnalyzer.GroupsMembership | demo/script_2.py:157-163 | every row lands in the group of its key and in no other |
| DataAnalyzer.GroupsCoverAll | demo/script_2.py:157-163 | the group sizes add up to the number of rows |
| DataAnalyzer.ValueSum | demo/script_2.py:122 | the window sum exists exactly when every row of the window has a numeric `value` |
| DataAnalyzer.WindowOf | demo/script_2.py:120-121 | the window of row i ends at row i and holds min(i + 1, window) rows; it is empty for a window below 1 |
| DataAnalyzer.WindowOfNumeric | demo/script_2.py:120-122 | a window of all-numeric data is all-numeric |
| DataAnalyzer.AveragedStep | demo/script_2.py:118-127 | appending the next annotated row keeps the result a prefix of the annotated data |
| DataAnalyzer.MovingAverage | demo/script_2.py:112-129 | shorter data than the window comes back as it is. Otherwise the call succeeds exactly when the data is empty, or the window is at least 1 and every value is numeric. The result is then the input, row by row, each row with its window's average |
| DataAnalyzer.ConstantSum | demo/script_2.py:122 | values all equal to c sum to their count times c |
| DataAnalyzer.ConstantAverage | demo/script_2.py:120-122 | over constant values every window averages to that value |
| DataAnalyzer.DetectAnomalies | demo/script_2.py:131-155 | fewer than 3 rows give no anomaly. Otherwise the call succeeds exactly when every value is numeric. The result is then the rows whose z-score against the mean and population deviation exceeds the threshold, annotated, in order |
| DataAnalyzer.FlaggedRows | demo/script_2.py:142-153 | every flagged row is an input row with its z-score, which exceeds the threshold, and the anomaly mark; there are never more than the input rows |
| DataAnalyzer.NoSpreadNoAnomaly | demo/script_2.py:143-148 | with no spread and a non-negative threshold nothing is flagged |
| DataAnalyzer.CalculateStatistics | demo/script_2.py:165-181 | empty data gets the error record; otherwise the call succeeds exactly when every value is numeric |
| DataAnalyzer.SummaryMean | demo/script_2.py:174-179 | the count is the number of rows and the mean times the count is the sum |
| DataAnalyzer.SummaryMeanBetween | demo/script_2.py:175-180 | the mean lies between min and max, and the range is their difference |
| DataAnalyzer.SummaryExtremes | demo/script_2.py:176-177 | min and max bound every row's value and are each taken by some row |

## Left out

- The aggregate statistics of the dashboard (`getStats`, `subscribeStats`) are called from the stats stream but are not defined in `traceStore.ts`, so there is nothing to model.
- The server-sent-event endpoints, the polling and `EventSource` client, and React rendering are stream I/O and presentation.
- The `OPTIONS` handler returns a constant CORS response.
- Listener callbacks are handles, with a ghost log of the calls. Exceptions thrown by a listener, and listeners that subscribe or unsubscribe during `forEach`, are not modelled.
- `request.json()` is modelled as an already-decoded body or `Malformed`. Valid JSON of the wrong shape (a runtime `TypeError` part-way through the loops, after some traces were added) is not modelled.
- `Date.now()` and `new Date().toISOString()` are the `clock` parameter. The model does not assume readings are distinct, so `id` uniqueness is not claimed.
- `JSON.parse` is the `parse` parameter. The percentage bar (`ai_percentage || 0`, CSS width) is presentation.
- The metrics page's percentages (float division, `toFixed`) are presentation.
- Floating point is modelled as exact reals. Rounding to two places (`round`) of averages and z-scores is not modelled, and the square root in `detect_anomalies` is the `sqrt` parameter.
- DataProcessor.Processor.ProcessData: medians and standard deviations of prices, quantities and ratings are not returned. Computing them needs sorting and square roots of floats. The `metadata` timestamp is not modelled either.
- DataAnalyzer.CalculateStatistics: the median (`sorted(values)[n // 2]`) is not returned. Python's `min`/`max` over text values are not modelled, because `sum` raises on those first.
- DataAnalyzer.GroupByCategory: Python treats `True` and `1` (and `1.0`) as the same dict key. The model keeps them apart.
- The random draws of `generate_sample_data` are the `draw` parameter. The ranges of price, quantity and rating are not enforced.
- DataProcessor.Processor.ProcessData, DataProcessor.FilterData, DataProcessor.CategoryBreakdown: records are typed `Product` values, so the `KeyError` of a record without `price` or `category` and the `TypeError` of a non-numeric price (script_1.py lines 54, 84, 88, 133, 136) cannot arise in the model.
- Python default arguments (`name="default_processor"`, `count=100`, `window=7`, `threshold=2.0`) are not modelled; every model takes these values as explicit parameters.
- A span without `traceId` or `spanId` yields an `id` containing the text `undefined` and is still stored; the model's spans always carry both strings, so that case is not represented.
- TextProcessor.Lower: only ASCII letters are lower-cased. Unicode case mapping is not modelled.
- `clean_text`, `calculate_readability_score`, `extract_keywords`, `generate_time_series`, `save_to_csv`, `save_to_json`, `generate_hash`, `WebScrapingSimulator` and both scripts' `main` are left out. They are regex cleanup, float metrics, random or time-based generation, file I/O, hashing and printing.
