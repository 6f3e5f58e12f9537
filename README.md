# App review topic pipeline — a Dafny model

This project models the core of an app-review analyser. The analyser fetches an app's store
reviews over a range of days. It asks a language model for the topics each review raises,
and merges the many spellings of one topic into a canonical taxonomy. It then counts the
canonical topics per day to report trending and emerging topics.

Five modules follow the four source files:

- **`Consolidator`** (`consolidator.dfy`) models the topic taxonomy consolidator, class
  `TopicConsolidator`. It keeps `topic_mapping` (raw topic to canonical topic) and
  `canonical_topics`.
  - The first batch is mapped in one request to the model. When that request fails or its
    reply does not parse, every topic becomes its own canonical topic.
  - After that, each topic is handled on its own. A topic already mapped keeps its value.
    For a new topic the model is asked once, and its answer is accepted only when it is
    already canonical or is the topic itself.
  - The per-topic loop is specified by a fold, `Incremental`, over the order in which the
    loop visits the batch. The lemmas hold for every order.
  - `apply_mapping` rewrites extraction records through the mapping.
- **`Trends`** (`trends.dfy`) models the trend analyzer, class `TrendAnalyzer`. It holds
  per-topic, per-day counts, computes inclusive day-window totals, picks the top N topics by
  total, and applies the emerging rule, which compares two adjacent windows.
  - Days are day numbers. The analyzer's `YYYY-MM-DD` keys are a one-to-one image of them.
  - Each per-topic loop is specified by the fold `Collect` over its visiting order.
  - Sorting is a descending insertion sort (`Sorting`). It stands for Python's
    `sorted(..., reverse=True)` and `list.sort(..., reverse=True)`.
- **`Extractor`** (`extractor.dfy`) models the topic extractor's post-processing:
  - chunks of thirty reviews;
  - one model request per chunk;
  - matching the reply back to the reviews by one-based `review_index`;
  - the error fallback;
  - the union of all topics.
- **`ReplyText`** (`reply_text.dfy`) models Python's `str.strip()` and the removal of code
  fences around a JSON reply. The extractor and the consolidator share this step.
- **`Scraper`** (`scraper.dfy`) models the date bucketing of the review scraper. One bucket is
  created per day from the start. Reviews in `[start, end]` whose day has a bucket are
  appended to it in fetch order, carrying four fields.

The language model and `json.loads` are parameters. A request is a function that returns
`None` when it fails or `Some(reply)` with the reply text. A parse is a function that returns
`None` when the text does not decode. The reviews the scraper's paging loop collected are
also a parameter. `Records` holds the record types shared between modules, and `Wrappers`
holds `Option`.

Four behaviours of the code are worth knowing, and the model keeps all four:

- **Bootstrap coverage.** The bootstrap reply is used as returned. Nothing checks that it
  covers every topic of the batch, so a topic the reply leaves out stays unmapped
  (topic_consolidator.py:130-131).
- **`_update_taxonomy` overwrites.** It overwrites an existing key rather than refusing a
  different value (topic_consolidator.py:213-215). It only runs on an empty store, so in
  practice nothing is overwritten.
- **Live canonical set.** The matcher sees the canonical set as it grows during the call,
  not as it was when the call began. A later topic of a batch may therefore be matched to
  a canonical topic that an earlier topic of the same batch created
  (topic_consolidator.py:55-64, 198). The fold `Incremental` passes the live set to the
  matcher.
- **Applying the mapping twice.** Reapplying the mapping leaves canonical topics unchanged
  only while every canonical topic is a key mapped to itself (`Taxonomy.Closed`). The
  identity fallback and the per-topic loop keep that, but a bootstrap reply need not. With
  `a` mapped to `A` and `A` not a key, the matcher may later send `A` to `B`. Then `a` still
  maps to `A`, and mapping it twice gives `B` (topic_consolidator.py:130-131, 198, 230-233).

## Model

| member | source | states |
|---|---|---|
| Consolidator.TopicConsolidator.constructor | topic_consolidator.py:22-23 | the store starts with an empty mapping and an empty canonical set, which satisfies the invariant that the canonical set is the range of the mapping |
| Consolidator.InitialTaxonomy | topic_consolidator.py:68-136 | an empty batch gives the empty mapping; a failed request or an unparsable cleaned reply gives exactly the identity mapping over the batch; otherwise the result is the parsed reply itself, with no coverage check |
| Consolidator.FindCanonicalTopic | topic_consolidator.py:138-207 | the result is the topic itself or a member of the canonical set; it differs from the topic only when the model answered and the result is the cleaned answer; a cleaned answer that is already canonical is accepted |
| Consolidator.CleanAnswer | topic_consolidator.py:195 | defines the answer cleaning `.strip().strip('"\'')`; `QuotedAnswerIsUnquoted` states what it does to a quoted answer |
| Consolidator.Identity | topic_consolidator.py:136 | the fallback mapping: its keys are exactly the topics, and each topic maps to itself |
| Consolidator.Step | topic_consolidator.py:56-64 | defines one loop turn: a mapped topic leaves the store as it is; a new topic is recorded with `FindCanonicalTopic`'s answer, which also joins the canonical set; its properties are the `Incremental…` lemmas |
| Consolidator.Incremental | topic_consolidator.py:55-64 | defines the per-topic loop as a fold of `Step` over the visiting order; `ConsolidateIncrementally` is proved to leave the store equal to it |
| Consolidator.QuotedAnswerIsUnquoted | topic_consolidator.py:195 | an answer wrapped in double quotes is read as the topic inside them |
| Consolidator.IncrementalGrows | topic_consolidator.py:55-64 | the per-topic loop adds exactly the batch's topics as keys, never reassigns an existing key, and never removes a canonical topic |
| Consolidator.IncrementalKeys | topic_consolidator.py:57-63 | after the loop a topic is mapped exactly when it was mapped before or is in the batch |
| Consolidator.IncrementalKeepsConsistent | topic_consolidator.py:63-64 | the loop keeps the canonical set equal to the range of the mapping |
| Consolidator.IncrementalNewCanonicals | topic_consolidator.py:198-203 | every canonical topic the loop adds is a topic of the batch that was unmapped before and now maps to itself, so the model can only pick canonical topics that already exist |
| Consolidator.IncrementalConsultsOnlyNewTopics | topic_consolidator.py:57-61 | the model is consulted only about topics unmapped when the call began: two matchers that agree on those give the same store |
| Consolidator.IncrementalOfMappedTopics | topic_consolidator.py:57-58 | a batch of topics that are all mapped leaves the store unchanged, whatever the model would answer |
| Consolidator.RepeatedBatchChangesNothing | topic_consolidator.py:55-64 | after a batch, a second batch of topics seen before changes nothing, so consolidation is idempotent |
| Consolidator.MapTopic | topic_consolidator.py:231 | defines `topic_mapping.get(topic, topic)`, which `MapTopics` and `ApplyMapping` state pointwise |
| Consolidator.TopicConsolidator.UpdateTaxonomy | topic_consolidator.py:209-215 | the new mapping is the old one overridden by every pair of the given mapping, and every value joins the canonical set |
| Consolidator.TopicConsolidator.ConsolidateTopics | topic_consolidator.py:33-66 | an empty batch returns nothing and changes nothing; with no canonical topics the bootstrap mapping is returned and recorded; otherwise the store becomes the fold over the visiting order, the visiting order lists every batch topic exactly once, the result has exactly the batch's topics as keys with the values now stored, and the canonical set stays the range of the mapping; `asked` is the batch's unmapped topics, and `IncrementalConsultsOnlyNewTopics` shows the matcher's answers matter only for those |
| Consolidator.TopicConsolidator.Bootstrap | topic_consolidator.py:49-51 | the first batch: an empty store takes the bootstrap mapping as its whole mapping, and the canonical set becomes exactly its values |
| Consolidator.TopicConsolidator.ConsolidateIncrementally | topic_consolidator.py:55-66 | the per-topic loop: the visiting order lists every batch topic exactly once (no repeats), the store ends equal to the fold over that order, and each topic's stored canonical value is returned; `asked` is the topics unmapped when the call began, and `IncrementalConsultsOnlyNewTopics` shows the matcher's answers matter only for those |
| Consolidator.TopicConsolidator.ConsolidateOne | topic_consolidator.py:56-64 | a mapped topic keeps its value with no request; a new topic is recorded with the validated answer; no existing key changes |
| Consolidator.MapTopics | topic_consolidator.py:230-233 | the topic list keeps its length, and each topic is replaced by its mapped value, or kept when unmapped |
| Consolidator.IdentityIsClosed | topic_consolidator.py:134-136 | the identity fallback gives a consistent store in which every canonical topic is a key mapped to itself |
| Consolidator.IncrementalKeepsClosed | topic_consolidator.py:55-64 | the per-topic loop keeps every canonical topic a key mapped to itself: a new topic maps to itself or to a canonical topic that already does (topic_consolidator.py:198) |
| Consolidator.MapTopicIdempotent | topic_consolidator.py:230-233 | in a consistent store whose canonical topics map to themselves, looking a topic up twice gives what looking it up once gives |
| Consolidator.MapTopicsIdempotent | topic_consolidator.py:229-233 | in such a store, reapplying the mapping to a mapped topic list changes nothing |
| Consolidator.UnclosedStoreBreaksIdempotence | topic_consolidator.py:130-131 | a consistent store reachable from a bootstrap reply ({a→A, b→B}), where `A` is not a key, becomes one where `a` maps to `A` but mapping it twice gives `B`, once the matcher's answer "B" for `A` is accepted as canonical (topic_consolidator.py:198) |
| Consolidator.TopicConsolidator.ApplyMapping | topic_consolidator.py:217-242 | one record per input record, in order; `review_id` kept; each topic mapped or kept; content and reasoning default to the empty string; with a consistent store every mapped topic becomes a canonical topic; reads the state without changing it |
| Consolidator.TopicConsolidator.GetTopicMapping | topic_consolidator.py:244-246 | returns the whole mapping as a value |
| Consolidator.TopicConsolidator.GetCanonicalTopics | topic_consolidator.py:248-250 | returns the canonical set as a value |
| ReplyText.LeftStrip | topic_extractor.py:114 | the result is a suffix of the input, does not start with a dropped character, and everything removed was a dropped character |
| ReplyText.RightStrip | topic_extractor.py:123 | the result is a prefix of the input, does not end with a dropped character, and everything removed was a dropped character |
| ReplyText.StripWhere | topic_consolidator.py:195 | `strip(chars)` leaves neither end in the stripped set and never lengthens the text; `StripWhereIsSlice` states that it removes only such characters around one slice |
| ReplyText.StripWhereIsSlice | topic_consolidator.py:195 | `strip(chars)` keeps one contiguous slice of the text and removes only characters of the stripped set on either side of it |
| ReplyText.Trim | topic_extractor.py:114 | defines `str.strip()` as `StripWhere` over the characters for which `str.isspace()` holds |
| ReplyText.DropFences | topic_extractor.py:117-122 | defines the middle of the cleaning: it removes a leading "```json", then a leading "```", then a trailing "```", and never lengthens the text; its properties are `DropFencesOfFenced`, `DropFencesOfUnfenced` and `DropFencesOfPlainFenced` |
| ReplyText.StripFences | topic_extractor.py:114-123 | defines the reply cleaning shared with topic_consolidator.py:119-128: strip, drop the fences, strip again; its properties are `StripFencesIsTrimmed`, `UnfencedReplyIsOnlyTrimmed`, `FencedReplyRecoversBody` and `PlainFencedReplyRecoversBody` |
| ReplyText.StripFencesIsTrimmed | topic_extractor.py:114-123 | the cleaned reply has no surrounding whitespace left |
| ReplyText.UnfencedReplyIsOnlyTrimmed | topic_extractor.py:114-123 | a reply whose text, with its surrounding whitespace removed, neither starts nor ends with a fence comes out as that text |
| ReplyText.FencedReplyRecoversBody | topic_consolidator.py:119-128 | a non-empty body that neither starts nor ends with whitespace or a backtick, wrapped in "```json" and "```" fences with any whitespace around and inside the fences, is recovered exactly |
| ReplyText.PlainFencedReplyRecoversBody | topic_extractor.py:117-123 | a body wrapped in bare "```" fences, with whitespace after the opening fence, is recovered exactly |
| ReplyText.DropFencesOfUnfenced | topic_extractor.py:117-122 | text that neither starts nor ends with a fence is left as it is by the fence removal |
| ReplyText.DropFencesOfFenced | topic_extractor.py:117-122 | when only whitespace follows "```json" and the body is non-empty and does not start with a backtick, the leading "```json" and the trailing "```" are removed and nothing else is |
| Extractor.NatToStringRoundTrip | topic_extractor.py:133 | the decimal digits written for a review position read back as that position |
| Extractor.FallbackId | topic_extractor.py:133 | defines `f"review_{i}"`; `FallbackIdsDistinct` states that different positions give different ids |
| Extractor.ReviewIdAt | topic_extractor.py:133 | defines `review.get('reviewId', f"review_{i}")`: the review's own id when it has one, the fallback id otherwise |
| Extractor.FallbackIdsDistinct | topic_extractor.py:144 | the fallback ids `review_{i}` of different positions differ; the position restarts at zero in every chunk, so this holds within one chunk only |
| Extractor.FirstMatch | topic_extractor.py:130 | finds the first result whose `review_index` equals the one asked for, or reports that none has it |
| Extractor.MatchEntry | topic_extractor.py:130-137 | defines the record of one review: present only when some result carries its one-based index, with the topics and reasoning (default empty) of the first such result |
| Extractor.Matched | topic_extractor.py:128-139 | defines the records of the matching loop in review order; `MatchedFollowsReviews` and `MatchedIndicesInOrder` state what they are |
| Extractor.MatchedFollowsReviews | topic_extractor.py:128-139 | each output record belongs to one matched review position, with that review's id and content and the topics and reasoning of the first matching result |
| Extractor.MatchedIndicesInOrder | topic_extractor.py:128-139 | matched positions strictly increase, so records follow review order; every review with a matching result gets a record; there are at most as many records as reviews |
| Extractor.MatchedLength | topic_extractor.py:128-139 | matching never yields more records than reviews |
| Extractor.ErrorRecords | topic_extractor.py:144-145 | defines the error records, one per review with empty topics and reasoning "error"; `ChunkOutputCases` states them |
| Extractor.ChunkOutput | topic_extractor.py:108-145 | defines what `_process_chunk` returns for a reply; `ChunkOutputCases` and `ChunkOutputLength` state it, `ProcessChunk` is proved equal to it |
| Extractor.ChunkOutputCases | topic_extractor.py:108-145 | a failed request or an unparsable reply gives exactly one record per review, in order, with the review's id and content, empty topics and reasoning "error"; a parsed reply gives the matched records |
| Extractor.ChunkOutputLength | topic_extractor.py:128-145 | a chunk never yields more records than it has reviews |
| Extractor.MatchResults | topic_extractor.py:128-139 | the matching loop computes the matched records |
| Extractor.ProcessChunk | topic_extractor.py:108-145 | `_process_chunk` computes the chunk output for the reply: error records or matched records |
| Extractor.ChunksPartition | topic_extractor.py:48-53 | the chunks are non-empty, hold at most thirty reviews, all but the last exactly thirty, and concatenate back to the batch |
| Extractor.Chunks | topic_extractor.py:52-53 | defines `reviews[i:i + 30]` for `i` in `range(0, len(reviews), 30)`; `ChunksPartition` states that they partition the batch |
| Extractor.Outputs | topic_extractor.py:52-57 | defines the chunk outputs concatenated in chunk order; `ExtractTopicsFromBatch` is proved equal to it |
| Extractor.OutputsLength | topic_extractor.py:52-57 | the concatenated chunk outputs are no longer than the concatenated chunks |
| Extractor.ExtractTopicsFromBatch | topic_extractor.py:35-57 | the result is the chunk outputs concatenated in chunk order; an empty batch gives nothing |
| Extractor.BatchOutputLength | topic_extractor.py:35-57 | the whole batch yields at most one record per review |
| Extractor.GetAllUniqueTopics | topic_extractor.py:147-160 | a topic is in the result exactly when some record lists it |
| Records.InAllTopics | trend_analyzer.py:28-29 | a topic occurs in the flattened topic lists exactly when some record lists it |
| Sorting.SortDescending | trend_analyzer.py:117-121 | the result is a permutation of the input in non-increasing order of the key |
| Trends.WindowSplit | trend_analyzer.py:145-166 | a window total is the sum of the totals of its two parts |
| Trends.WindowTotal | trend_analyzer.py:106-111 | defines the sum of `dates.get(day, 0)` over the days `first` to `last`, both included; `SumWindow` is proved equal to it |
| Trends.WindowPositive | trend_analyzer.py:113-114 | a window total is positive exactly when some day of the window has a count |
| Trends.StoredDayCounts | trend_analyzer.py:105-114 | a day stored with a positive count (as `add_daily_data` stores them, trend_analyzer.py:33-34) gives every window containing it a positive total, so the topic passes the `total > 0` filter |
| Trends.SumWindow | trend_analyzer.py:106-111 | the `while current <= last` loop computes the inclusive window total |
| Trends.RowSumIsWindowTotal | trend_analyzer.py:66-79 | a report row of daily counts adds up to the window total over its days, which is the report's sort key |
| Trends.CountInto | trend_analyzer.py:28-30 | counting one record adds each topic's number of occurrences in it to its count |
| Trends.CountTopics | trend_analyzer.py:26-30 | the counted topics are exactly those of the batch, each with its number of occurrences over all records, with multiplicity |
| Trends.FrequencyOrder | trend_analyzer.py:117-120 | comparing totals is a total preorder, so the descending sort is well defined |
| Trends.SliceEnd | trend_analyzer.py:121 | the length of `xs[:n]`: `min(n, len)` for a non-negative `n`, and `len + n` but at least 0 for a negative one |
| Trends.GrowthOrder | trend_analyzer.py:183-187 | comparing growth rates, with infinity above every finite rate, is a total preorder |
| Trends.EmergingWindowsPartition | trend_analyzer.py:145-147 | the older window ends the day before the recent window starts; the windows are `older_days` and `recent_days` long; their totals add up to the total of the joined window |
| Trends.RecentStart | trend_analyzer.py:145 | defines `target - (recent_days - 1)`; `EmergingWindowsPartition` states the window lengths |
| Trends.OlderStart | trend_analyzer.py:146 | defines `target - (recent_days + older_days - 1)` |
| Trends.OlderEnd | trend_analyzer.py:147 | defines `target - recent_days`, the day before the recent window |
| Trends.IsEmerging | trend_analyzer.py:168-176 | defines the emerging rule on integers; `EmergingIsFiftyPercentGrowth` proves it equal to `growth_rate > 0.5` when there is older activity, and without it the rule is `recent >= 3` |
| Trends.Emerges | trend_analyzer.py:151-176 | defines the rule applied to the two window totals of a topic |
| Trends.Assess | trend_analyzer.py:168-184 | defines the emerging entry: both totals and the growth rate, `Infinite` when the older total is zero |
| Trends.EmergingIsFiftyPercentGrowth | trend_analyzer.py:169-171 | with older activity, `(recent - older) / older > 0.5` holds exactly when `2 * recent > 3 * older` |
| Trends.CollectMembers | trend_analyzer.py:105-114 | every collected entry is the entry of a visited topic |
| Trends.CollectComplete | trend_analyzer.py:105-114 | the entry of every visited topic that has one is collected |
| Trends.CollectDistinct | trend_analyzer.py:151-184 | topics visited once give entries for distinct topics |
| Trends.RankedCollect | trend_analyzer.py:117-121 | any rearrangement of the collected entries holds exactly the topics with an entry, once each, with their entries |
| Trends.PositiveTotals | trend_analyzer.py:105-114 | the per-topic loop visits every stored topic once and collects exactly the topics with a positive window total, once each, with that total |
| Trends.AssessTopic | trend_analyzer.py:151-184 | a topic is appended exactly when it is emerging, with its recent and older totals and its growth rate, infinite when the older total is zero |
| Trends.EmergingCandidates | trend_analyzer.py:151-184 | the per-topic loop visits every stored topic once and collects exactly the emerging topics, once each, with their assessment |
| Trends.RankedTotals | trend_analyzer.py:113-125 | the sorted totals list each topic with a positive window total exactly once, with that total |
| Trends.RankedEmerging | trend_analyzer.py:169-187 | the sorted emerging list holds each emerging topic exactly once, assessed, and nothing else |
| Trends.TopTrending | trend_analyzer.py:117-121 | the `[:top_n]` prefix of a complete descending ranking keeps the totals, distinctness and order, and holds the most frequent topics |
| Trends.TopTotals | trend_analyzer.py:101-121 | the totals loop, the sort and the slice give the most frequent topics, as stated for `GetTrendingTopics` |
| Trends.TrendAnalyzer.constructor | trend_analyzer.py:15 | the counts start empty |
| Trends.TrendAnalyzer.AddDailyData | trend_analyzer.py:17-34 | each topic of the batch gets, for that date, its number of occurrences over all topic lists, replacing any earlier count; counts of other dates and of other topics are unchanged; only positive counts are stored |
| Trends.TrendAnalyzer.DateRange | trend_analyzer.py:51-58 | the range holds the `lookback_days + 1` consecutive days from `target - lookback_days` to `target` |
| Trends.TrendAnalyzer.GenerateTrendReport | trend_analyzer.py:36-71 | the date range as above, and one row per stored topic with its count on each day of the range, 0 when absent |
| Trends.TrendAnalyzer.GetTrendingTopics | trend_analyzer.py:84-126 | the result lists topics with a positive total over the inclusive window, once each, with that total, in non-increasing order; for a non-negative `top_n` it has at most `top_n` entries, and when it is shorter every topic with a positive total is listed, which, as the stored counts are positive, includes every topic with a count stored for a day of the window; any topic left out is no more frequent than every listed one |
| Trends.TrendAnalyzer.GetEmergingTopics | trend_analyzer.py:128-189 | the result holds exactly the emerging topics, once each, with both window totals and the growth rate, in non-increasing order of growth rate with infinite growth first |
| Scraper.Carry | scraper.py:87-92 | a bucketed record carries exactly `content`, `score`, `at` and `reviewId` |
| Scraper.IsKeyDay | scraper.py:76-79 | defines the days the first loop creates a bucket for; `KeyDaysAreARange` states which |
| Scraper.Keeps | scraper.py:84-86 | defines the filter: in `[start, end]` and on a day that has a bucket |
| Scraper.Bucket | scraper.py:82-92 | defines a day's bucket, the kept reviews of the day carried in fetch order; `BucketMembers` and `BucketOfConcat` state it, `BucketByDate` is proved to produce it |
| Scraper.KeyDaysAreARange | scraper.py:73-79 | the days given a bucket are exactly the days from the start day to the end day, less the end day when the start's time of day is later than the end's |
| Scraper.BucketOfConcat | scraper.py:82-92 | bucketing keeps fetch order: the bucket of a concatenation of fetched lists is the concatenation of their buckets |
| Scraper.BucketMembers | scraper.py:82-92 | every record in a day's bucket comes from a kept review of that day, and every kept review of that day is in it |
| Scraper.DroppedReviewReachesNoBucket | scraper.py:84-86 | a review outside `[start, end]`, or on a day without a bucket, reaches no bucket |
| Scraper.EndDayWithoutBucket | scraper.py:74-86 | whenever the start's time of day is later than the end's, the end day has no bucket, and a review on the end day, even one inside `[start, end]`, changes no bucket |
| Scraper.BucketByDate | scraper.py:72-92 | the buckets are exactly the pre-created days, and each day's bucket is the kept reviews of that day, carried, in fetch order |
| Scraper.DayStart | scraper.py:111 | defines 00:00:00.000000 of a day |
| Scraper.DayEnd | scraper.py:112 | defines 23:59:59.999999 of a day |
| Scraper.OnDay | scraper.py:114-117 | defines every fetched review of one day, carried, in fetch order; `WholeDayBucket` proves the day's bucket equal to it |
| Scraper.WholeDayBucket | scraper.py:111-117 | from 00:00:00.000000 to 23:59:59.999999 of a day, only that day has a bucket, and the bucket holds every fetched review of the day |
| Scraper.ScrapeSingleDay | scraper.py:111-117 | the result is every fetched review of the target day, carried, in fetch order |

## Left out

- The language model requests (`generate_content`), the prompt texts and the configuration read from the environment are left out. Each request is a parameter that returns the reply text or a failure.
- `json.loads` is a parameter. In the extractor it yields a list of results, each with a `review_index`, a `topics` list and an optional `reasoning`. In the source, an element without `review_index` or `topics` fails the chunk only when the matching loop reaches it. The model treats such a reply as unparsable as a whole.
- `Consolidator.InitialTaxonomy`: in the bootstrap, `json.loads` is a parameter that yields a string-to-string object. The source does not fall back when the reply decodes to something else. A list, string, number or `null` reaches `_update_taxonomy`, whose `.items()` raises outside any handler (topic_consolidator.py:213), so `consolidate_topics` raises and records nothing. An object with a list value records its key and then raises at topic_consolidator.py:215, leaving the canonical set different from the range of the mapping. The model replaces these crashes with the identity fallback. An object whose values are numbers, booleans or `null` raises nothing: the source records it, and those values join the canonical set as non-strings (topic_consolidator.py:213-215). The model's `parse` yields only a string-to-string map or a failure, so it does not capture that case.
- `print` logging and the progress statistics (scraper.py:96-97) are left out.
- The pandas DataFrame, its sort by total, and the CSV export are left out. The report is modelled as its date range and per-topic rows. `RowSumIsWindowTotal` ties a row's sum to the window total that the DataFrame sorts by.
- Floating point is not modelled. Growth rates are exact rationals, and `float('inf')` is a separate `Infinite` case.
- `datetime`, `timedelta` and `strftime` are modelled as day numbers and (day, microsecond-of-day) timestamps. The scraper stores `at` as an ISO string, while the model keeps the timestamp value.
- The scraper's paging loop is left out, with its network calls, continuation tokens and `time.sleep` (scraper.py:41-70). The fetched reviews are an input.
- The `max_reviews_per_day` parameter is not modelled, since the source never uses it.
- Python set and dict iteration order is not modelled. Each loop over a set or dict picks its next element arbitrarily. The order it used is returned as a ghost value, and every property holds whatever that order is.
- The dict key order of the scraper's buckets is not modelled: the buckets form a map from day to list.
- `Trends.TrendAnalyzer.GetTrendingTopics`: does not state the relative order of topics with equal totals. Python's sort is stable and keeps their dictionary order; the contract only states the non-increasing order.
- `Trends.TrendAnalyzer.GetTrendingTopics`: does not state the length for a negative `top_n`, where Python's `[:top_n]` drops entries from the end. The body slices as Python does (`Trends.SliceEnd`).
- `Trends.TrendAnalyzer.GetEmergingTopics`: does not state the relative order of topics with equal growth rates, for the same reason.
- `Sorting.SortDescending`: does not state stability. Python's `sorted(..., reverse=True)` and `list.sort(..., reverse=True)` keep equal keys in their input order; the contract states a non-increasing permutation only.
- `Trends.TopTotals`: does not state the relative order of topics with equal totals, nor the length for a negative `top_n`, for the reasons given for `GetTrendingTopics`.
- `Trends.TrendAnalyzer.GetEmergingTopics`: the in-place `emerging.sort` is modelled as sorting a sequence into a new value.
- `Consolidator.TopicConsolidator.ApplyMapping`: the source loop that appends to a list is modelled as a function that reads the store. It builds the same list and states that the store is unchanged.
- The seed-topic prompt text of the extractor is not part of this model, since it only changes the prompt.
