/**
 * The post-processing of the topic extractor: the batch is cut into chunks of thirty
 * reviews, each chunk goes to the language model in one request, and the model's JSON
 * answer is matched back to the reviews of the chunk by their one-based index.
 */
module Extractor {
  import opened Wrappers
  import opened Records
  import ReplyText

  /** The number of reviews sent to the model in one request. */
  const ChunkSize: nat := 30

  /** One element of the model's JSON array: `review_index`, `topics` and, when present, `reasoning`. */
  datatype ChunkResult = ChunkResult(reviewIndex: int, topics: seq<string>, reasoning: Option<string>)

  function DigitChar(d: nat): char
    requires d < 10
  {
    ('0' as int + d) as char
  }

  function DigitValue(c: char): int {
    c as int - '0' as int
  }

  /** `str(n)`: the decimal digits of `n`, without leading zeros. */
  function NatToString(n: nat): string
    decreases n
  {
    if n < 10 then [DigitChar(n)] else NatToString(n / 10) + [DigitChar(n % 10)]
  }

  /** The value of a string of decimal digits. */
  function ParseDigits(s: string): int {
    if s == [] then 0 else ParseDigits(s[..|s| - 1]) * 10 + DigitValue(s[|s| - 1])
  }

  /** Reading the digits back gives the number. */
  lemma {:induction false} NatToStringRoundTrip(n: nat)
    ensures ParseDigits(NatToString(n)) == n
    decreases n
  {
    if n >= 10 {
      NatToStringRoundTrip(n / 10);
      var s := NatToString(n / 10) + [DigitChar(n % 10)];
      assert s[..|s| - 1] == NatToString(n / 10);
    }
  }

  /** The review id used when a review has no `reviewId`: `review_{i}`. */
  function FallbackId(i: nat): string {
    "review_" + NatToString(i)
  }

  /**
   * Different positions give different fallback ids. The position counts from zero in every
   * chunk, so the ids are distinct within one chunk only: reviews without an id in two
   * chunks can share `review_0`, `review_1`, ...
   */
  lemma FallbackIdsDistinct(i: nat, j: nat)
    requires i != j
    ensures FallbackId(i) != FallbackId(j)
  {
    if FallbackId(i) == FallbackId(j) {
      assert NatToString(i) == FallbackId(i)[7..];
      assert NatToString(j) == FallbackId(j)[7..];
      NatToStringRoundTrip(i);
      NatToStringRoundTrip(j);
      assert false;
    }
  }

  /** `review.get('reviewId', f"review_{i}")`: the review's own id when it has one. */
  function ReviewIdAt(review: Review, i: nat): string {
    review.reviewId.GetOr(FallbackId(i))
  }

  /** The position of the first result that carries `index`, as `next(...)` finds it. */
  function FirstMatch(results: seq<ChunkResult>, index: int): (r: Option<nat>)
    ensures r.Some? ==>
      && r.value < |results| && results[r.value].reviewIndex == index
      && forall j :: 0 <= j < r.value ==> results[j].reviewIndex != index
    ensures r.None? ==> forall j :: 0 <= j < |results| ==> results[j].reviewIndex != index
  {
    if results == [] then None
    else if results[0].reviewIndex == index then Some(0)
    else match FirstMatch(results[1..], index)
      case None => None
      case Some(k) => Some(k + 1)
  }

  /**
   * The record of review `i` of a chunk: present only when some result carries the index
   * `i + 1`, with the topics and the reasoning (by default empty) of the first such result.
   */
  function MatchEntry(review: Review, i: nat, results: seq<ChunkResult>): Option<Extraction> {
    match FirstMatch(results, i + 1)
    case None => None
    case Some(k) =>
      Some(Extraction(ReviewIdAt(review, i), results[k].topics, Some(review.content), Some(results[k].reasoning.GetOr(""))))
  }

  /** The records of the matching loop, in review order. */
  function Matched(reviews: seq<Review>, results: seq<ChunkResult>): seq<Extraction> {
    if reviews == [] then []
    else
      var n := |reviews| - 1;
      Matched(reviews[..n], results) + (match MatchEntry(reviews[n], n, results) case None => [] case Some(e) => [e])
  }

  /** The positions of the reviews that got a record. */
  function MatchedIndices(reviews: seq<Review>, results: seq<ChunkResult>): seq<nat> {
    if reviews == [] then []
    else
      var n := |reviews| - 1;
      MatchedIndices(reviews[..n], results) + (if MatchEntry(reviews[n], n, results).Some? then [n] else [])
  }

  /**
   * The matched records follow the reviews: record `k` belongs to the review at position
   * `idx[k]`, so there is one record per matched position.
   */
  lemma {:induction false} MatchedFollowsReviews(reviews: seq<Review>, results: seq<ChunkResult>)
    ensures var out := Matched(reviews, results);
      var idx := MatchedIndices(reviews, results);
      && |out| == |idx|
      && (forall k :: 0 <= k < |idx| ==> idx[k] < |reviews| && MatchEntry(reviews[idx[k]], idx[k], results) == Some(out[k]))
  {
    if reviews != [] {
      var n := |reviews| - 1;
      var init := reviews[..n];
      MatchedFollowsReviews(init, results);
      var prevIdx := MatchedIndices(init, results);
      assert forall k :: 0 <= k < |prevIdx| ==> init[prevIdx[k]] == reviews[prevIdx[k]];
    }
  }

  /**
   * The matched positions increase, lie within the chunk, and take in every review that has
   * a matching result; so there are at most as many records as reviews.
   */
  lemma {:induction false} MatchedIndicesInOrder(reviews: seq<Review>, results: seq<ChunkResult>)
    ensures var idx := MatchedIndices(reviews, results);
      && |idx| <= |reviews|
      && (forall k :: 0 <= k < |idx| ==> idx[k] < |reviews|)
      && (forall j, k :: 0 <= j < k < |idx| ==> idx[j] < idx[k])
      && (forall i :: 0 <= i < |reviews| && MatchEntry(reviews[i], i, results).Some? ==> i in idx)
  {
    if reviews != [] {
      var n := |reviews| - 1;
      var init := reviews[..n];
      MatchedIndicesInOrder(init, results);
      assert forall i :: 0 <= i < n ==> init[i] == reviews[i];
    }
  }

  /** `{'review_id': ..., 'topics': [], 'content': ..., 'reasoning': 'error'}` for every review of the chunk. */
  function ErrorRecords(reviews: seq<Review>): seq<Extraction> {
    seq(|reviews|, i requires 0 <= i < |reviews| =>
      Extraction(ReviewIdAt(reviews[i], i), [], Some(reviews[i].content), Some("error")))
  }

  /**
   * The results the model's reply parses to, once its code fences are stripped; `None`
   * when the request failed or the reply does not parse (the `try` of `_process_chunk`).
   */
  function ParsedReply(reply: Option<string>, parse: string -> Option<seq<ChunkResult>>): Option<seq<ChunkResult>> {
    match reply
    case None => None
    case Some(text) => parse(ReplyText.StripFences(text))
  }

  /**
   * What `_process_chunk` returns for the model's reply: a failed request or a reply that
   * does not parse gives the error records, otherwise the matched records.
   */
  function ChunkOutput(chunk: seq<Review>, reply: Option<string>, parse: string -> Option<seq<ChunkResult>>): seq<Extraction> {
    match ParsedReply(reply, parse)
    case None => ErrorRecords(chunk)
    case Some(results) => Matched(chunk, results)
  }

  /** At most one record per review is matched. */
  lemma {:induction false} MatchedLength(reviews: seq<Review>, results: seq<ChunkResult>)
    ensures |Matched(reviews, results)| <= |reviews|
  {
    if reviews != [] {
      MatchedLength(reviews[..|reviews| - 1], results);
    }
  }

  /**
   * A failed request or an unparsable reply gives exactly one error record per review, in
   * order; a parsed reply gives the matched records.
   */
  lemma ChunkOutputCases(chunk: seq<Review>, reply: Option<string>, parse: string -> Option<seq<ChunkResult>>)
    ensures ParsedReply(reply, parse).None? ==>
      var output := ChunkOutput(chunk, reply, parse);
      && |output| == |chunk|
      && forall i :: 0 <= i < |chunk| ==>
        output[i] == Extraction(ReviewIdAt(chunk[i], i), [], Some(chunk[i].content), Some("error"))
    ensures ParsedReply(reply, parse).Some? ==>
      ChunkOutput(chunk, reply, parse) == Matched(chunk, ParsedReply(reply, parse).value)
  {
  }

  /** A chunk never yields more records than it has reviews. */
  lemma ChunkOutputLength(chunk: seq<Review>, reply: Option<string>, parse: string -> Option<seq<ChunkResult>>)
    ensures |ChunkOutput(chunk, reply, parse)| <= |chunk|
  {
    var parsed := ParsedReply(reply, parse);
    if parsed.Some? {
      MatchedLength(chunk, parsed.value);
    }
  }

  /** The matching loop of `_process_chunk`. */
  method MatchResults(reviews: seq<Review>, results: seq<ChunkResult>) returns (output: seq<Extraction>)
    ensures output == Matched(reviews, results)
  {
    output := [];
    var i := 0;
    while i < |reviews|
      invariant 0 <= i <= |reviews|
      invariant output == Matched(reviews[..i], results)
    {
      assert reviews[..i + 1][..i] == reviews[..i];
      var k := FirstMatch(results, i + 1);
      if k.Some? {
        var r := results[k.value];
        output := output + [Extraction(ReviewIdAt(reviews[i], i), r.topics, Some(reviews[i].content), Some(r.reasoning.GetOr("")))];
      }
      i := i + 1;
    }
    assert reviews[..i] == reviews;
  }

  /** `_process_chunk` once the model has answered `reply` (or failed). */
  method ProcessChunk(chunk: seq<Review>, reply: Option<string>, parse: string -> Option<seq<ChunkResult>>)
    returns (output: seq<Extraction>)
    ensures output == ChunkOutput(chunk, reply, parse)
  {
    if reply.None? {
      return ErrorRecords(chunk);
    }
    var text := ReplyText.StripFences(reply.value);
    var parsed := parse(text);
    if parsed.None? {
      return ErrorRecords(chunk);
    }
    output := MatchResults(chunk, parsed.value);
  }

  function Min(a: int, b: int): int {
    if a < b then a else b
  }

  /** `reviews[i:i + 30]` for `i` in `range(0, len(reviews), 30)`. */
  function Chunks(reviews: seq<Review>): seq<seq<Review>>
    decreases |reviews|
  {
    if reviews == [] then []
    else if |reviews| <= ChunkSize then [reviews]
    else [reviews[..ChunkSize]] + Chunks(reviews[ChunkSize..])
  }

  function Flatten(chunks: seq<seq<Review>>): seq<Review> {
    if chunks == [] then [] else chunks[0] + Flatten(chunks[1..])
  }

  /** The chunks are non-empty, hold at most thirty reviews, all but the last exactly thirty, and concatenate back to the batch. */
  lemma {:induction false} ChunksPartition(reviews: seq<Review>)
    ensures Flatten(Chunks(reviews)) == reviews
    ensures forall k :: 0 <= k < |Chunks(reviews)| ==> 0 < |Chunks(reviews)[k]| <= ChunkSize
    ensures forall k :: 0 <= k < |Chunks(reviews)| - 1 ==> |Chunks(reviews)[k]| == ChunkSize
    decreases |reviews|
  {
    if |reviews| > ChunkSize {
      var tail := reviews[ChunkSize..];
      ChunksPartition(tail);
      var cs := Chunks(reviews);
      assert cs[1..] == Chunks(tail);
      assert reviews == reviews[..ChunkSize] + tail;
    } else if reviews != [] {
      assert Flatten([reviews]) == reviews + Flatten([]);
    }
  }

  /** The per-chunk outputs, concatenated in chunk order. */
  function Outputs(chunks: seq<seq<Review>>, ask: seq<Review> -> Option<string>, parse: string -> Option<seq<ChunkResult>>)
    : seq<Extraction>
  {
    if chunks == [] then [] else ChunkOutput(chunks[0], ask(chunks[0]), parse) + Outputs(chunks[1..], ask, parse)
  }

  /** The batch never yields more records than it has reviews. */
  lemma {:induction false} OutputsLength(chunks: seq<seq<Review>>, ask: seq<Review> -> Option<string>, parse: string -> Option<seq<ChunkResult>>)
    ensures |Outputs(chunks, ask, parse)| <= |Flatten(chunks)|
  {
    if chunks != [] {
      ChunkOutputLength(chunks[0], ask(chunks[0]), parse);
      OutputsLength(chunks[1..], ask, parse);
    }
  }

  /** The chunks from position `i` on: the next (at most) thirty reviews, then the chunks of the rest. */
  lemma ChunksFrom(reviews: seq<Review>, i: nat)
    requires i < |reviews|
    ensures Chunks(reviews[i..]) ==
      [reviews[i..Min(i + ChunkSize, |reviews|)]] + Chunks(reviews[Min(i + ChunkSize, |reviews|)..])
  {
    var tail := reviews[i..];
    if |tail| <= ChunkSize {
      assert reviews[i..Min(i + ChunkSize, |reviews|)] == tail;
      assert reviews[Min(i + ChunkSize, |reviews|)..] == [];
    } else {
      assert tail[..ChunkSize] == reviews[i..Min(i + ChunkSize, |reviews|)];
      assert tail[ChunkSize..] == reviews[Min(i + ChunkSize, |reviews|)..];
    }
  }

  lemma OutputsStep(chunk: seq<Review>, rest: seq<seq<Review>>, ask: seq<Review> -> Option<string>, parse: string -> Option<seq<ChunkResult>>)
    ensures Outputs([chunk] + rest, ask, parse) == ChunkOutput(chunk, ask(chunk), parse) + Outputs(rest, ask, parse)
  {
    assert ([chunk] + rest)[1..] == rest;
  }

  /**
   * `extract_topics_from_batch`: `ask` is the model's answer to the request for one chunk.
   * The result is the chunks' outputs in order; an empty batch gives nothing.
   */
  method ExtractTopicsFromBatch(reviews: seq<Review>, ask: seq<Review> -> Option<string>, parse: string -> Option<seq<ChunkResult>>)
    returns (all: seq<Extraction>)
    ensures all == Outputs(Chunks(reviews), ask, parse)
    ensures reviews == [] ==> all == []
  {
    if reviews == [] {
      return [];
    }
    all := [];
    var i := 0;
    while i < |reviews|
      invariant 0 <= i <= |reviews|
      invariant all + Outputs(Chunks(reviews[i..]), ask, parse) == Outputs(Chunks(reviews), ask, parse)
      decreases |reviews| - i
    {
      var next := Min(i + ChunkSize, |reviews|);
      var chunk := reviews[i..next];
      ChunksFrom(reviews, i);
      OutputsStep(chunk, Chunks(reviews[next..]), ask, parse);
      var results := ProcessChunk(chunk, ask(chunk), parse);
      all := all + results;
      i := next;
    }
    assert reviews[i..] == [];
  }

  /** The whole batch yields at most one record per review. */
  lemma BatchOutputLength(reviews: seq<Review>, ask: seq<Review> -> Option<string>, parse: string -> Option<seq<ChunkResult>>)
    ensures |Outputs(Chunks(reviews), ask, parse)| <= |reviews|
  {
    ChunksPartition(reviews);
    OutputsLength(Chunks(reviews), ask, parse);
  }

  /** `get_all_unique_topics`: a topic is in the set exactly when some record lists it. */
  method GetAllUniqueTopics(results: seq<Extraction>) returns (topics: set<string>)
    ensures forall t :: t in topics <==> exists i :: 0 <= i < |results| && t in results[i].topics
  {
    topics := {};
    var i := 0;
    while i < |results|
      invariant 0 <= i <= |results|
      invariant forall t :: t in topics <==> exists j :: 0 <= j < i && t in results[j].topics
    {
      topics := topics + set t | t in results[i].topics;
      i := i + 1;
    }
  }
}
